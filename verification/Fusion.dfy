/** Hybrid search (src/finsage/retrieval/search.py): normalise each channel's scores over the
    batch, weight, merge by primary key, sort and cut. Scores are reals. */
module Fusion {
  import opened Options
  import opened Reals
  import opened Seqs
  import opened StableSort

  /** A primary key, of which only equality matters. */
  type Pk(==, !new)

  /** `body` stands for the fields fusion only carries along. */
  datatype ChunkHit = ChunkHit(
    pk: Pk,
    body: string,
    denseScore: Option<real>,
    sparseScore: Option<real>,
    fusionScore: Option<real>)

  // Min-max normalisation

  function MinOf(s: seq<real>): (m: real)
    requires s != []
    ensures m in s && forall x | x in s :: m <= x
  {
    if |s| == 1 then s[0]
    else
      var m := MinOf(s[1..]);
      assert s == [s[0]] + s[1..];
      if s[0] <= m then s[0] else m
  }

  function MaxOf(s: seq<real>): (m: real)
    requires s != []
    ensures m in s && forall x | x in s :: x <= m
  {
    if |s| == 1 then s[0]
    else
      var m := MaxOf(s[1..]);
      assert s == [s[0]] + s[1..];
      if m <= s[0] then s[0] else m
  }

  function MinMax(scores: seq<real>): map<real, real> {
    if scores == [] then map[]
    else
      var lo, hi := MinOf(scores), MaxOf(scores);
      if hi == lo then map s | s in scores :: 1.0
      else map s | s in scores :: Over(s - lo, hi - lo)
  }

  function Present(scores: seq<Option<real>>): seq<real> {
    if scores == [] then []
    else if scores[0].Some? then [scores[0].value] + Present(scores[1..])
    else Present(scores[1..])
  }

  function Norm(pool: seq<Option<real>>, s: Option<real>): real {
    var norms := MinMax(Present(pool));
    if s.Some? && s.value in norms then norms[s.value] else 0.0
  }

  /** What a raw score of a channel adds to a fused score: its normalised score, weighted. */
  function Gain(weight: real, pool: seq<Option<real>>): Option<real> -> real {
    s => Times(weight, Norm(pool, s))
  }

  lemma {:induction false} PresentIn(pool: seq<Option<real>>)
    ensures forall x :: x in Present(pool) <==> Some(x) in pool
  {
    if pool != [] {
      PresentIn(pool[1..]);
      forall x ensures x in Present(pool) <==> Some(x) in pool {
        assert Some(x) in pool <==> pool[0] == Some(x) || Some(x) in pool[1..];
      }
    }
  }

  lemma {:induction false} NormOf(pool: seq<Option<real>>, x: real)
    requires Some(x) in pool
    ensures x in Present(pool)
    ensures var lo, hi := MinOf(Present(pool)), MaxOf(Present(pool));
            Norm(pool, Some(x)) == if hi == lo then 1.0 else Over(x - lo, hi - lo)
  {
    PresentIn(pool);
  }

  /** The least and the greatest score of a batch. */
  ghost predicate Extremes(pool: seq<Option<real>>, lo: real, hi: real) {
    Some(lo) in pool && Some(hi) in pool && forall z | Some(z) in pool :: lo <= z <= hi
  }

  lemma {:induction false} ExtremesAre(pool: seq<Option<real>>, lo: real, hi: real)
    requires Extremes(pool, lo, hi)
    ensures Present(pool) != [] && MinOf(Present(pool)) == lo && MaxOf(Present(pool)) == hi
  {
    PresentIn(pool);
    var s := Present(pool);
    assert lo in s && hi in s;
    assert Some(MinOf(s)) in pool && Some(MaxOf(s)) in pool;
  }

  /** A normalised score says where the score lies between the least and the greatest of its
      batch; it is 1 when these are equal, and 0 for a hit without a score. */
  lemma {:induction false} NormIsShare(pool: seq<Option<real>>, x: real, lo: real, hi: real)
    requires Some(x) in pool && Extremes(pool, lo, hi)
    ensures if lo == hi then Norm(pool, Some(x)) == 1.0 else Times(Norm(pool, Some(x)), hi - lo) == x - lo
    ensures Norm(pool, None) == 0.0
  {
    NormWithin(pool, x, lo, hi);
    if lo != hi { ShareOf(Norm(pool, Some(x)), x - lo, hi - lo); }
  }

  lemma NormWithin(pool: seq<Option<real>>, x: real, lo: real, hi: real)
    requires Some(x) in pool && Extremes(pool, lo, hi)
    ensures Norm(pool, Some(x)) == if hi == lo then 1.0 else Over(x - lo, hi - lo)
  {
    ExtremesAre(pool, lo, hi);
    NormOf(pool, x);
  }

  lemma ShareOf(norm: real, x: real, d: real)
    requires d != 0.0 && norm == Over(x, d)
    ensures Times(norm, d) == x
  {
    Cancel(x, d);
  }

  /** Normalised scores lie in [0, 1], keep the channel's order strictly, and give the best
      score of the batch 1 and, unless all are equal, the worst 0. */
  lemma {:induction false} NormIsMinMax(pool: seq<Option<real>>, x: real, y: real)
    requires Some(x) in pool && Some(y) in pool
    ensures 0.0 <= Norm(pool, Some(x)) <= 1.0
    ensures x < y ==> Norm(pool, Some(x)) < Norm(pool, Some(y))
    ensures (forall z | Some(z) in pool :: z <= x) ==> Norm(pool, Some(x)) == 1.0
    ensures (forall z | Some(z) in pool :: x <= z) && x < y ==> Norm(pool, Some(x)) == 0.0
  {
    PresentIn(pool);
    NormOf(pool, x);
    NormOf(pool, y);
    var s := Present(pool);
    var lo, hi := MinOf(s), MaxOf(s);
    if lo < hi {
      var d := hi - lo;
      OverSelf(d);
      if lo < x { SmallerNumerator(0.0, x - lo, d); }
      if x < hi { SmallerNumerator(x - lo, d, d); }
      if x < y { SmallerNumerator(x - lo, y - lo, d); }
    }
  }

  // What fusion means, per primary key

  function PkOf(h: ChunkHit): Pk { h.pk }

  function DenseOf(h: ChunkHit): Option<real> { h.denseScore }

  function SparseOf(h: ChunkHit): Option<real> { h.sparseScore }

  function Pks(hits: seq<ChunkHit>): seq<Pk> { Map(PkOf, hits) }

  function DenseScores(hits: seq<ChunkHit>): seq<Option<real>> { Map(DenseOf, hits) }

  function SparseScores(hits: seq<ChunkHit>): seq<Option<real>> { Map(SparseOf, hits) }

  /** The distinct elements in the order they first appear. */
  ghost function FirstSeen(pks: seq<Pk>): seq<Pk> {
    if pks == [] then []
    else
      var before := FirstSeen(pks[..|pks| - 1]);
      if pks[|pks| - 1] in pks[..|pks| - 1] then before else before + [pks[|pks| - 1]]
  }

  lemma {:induction false} FirstSeenOnce(pks: seq<Pk>)
    ensures Distinct(FirstSeen(pks))
    ensures forall x :: x in FirstSeen(pks) <==> x in pks
  {
    if pks != [] {
      var init := pks[..|pks| - 1];
      FirstSeenOnce(init);
      assert pks == init + [pks[|pks| - 1]];
    }
  }

  ghost function LastOf(hits: seq<ChunkHit>, pk: Pk): Option<ChunkHit> {
    if hits == [] then None
    else if hits[|hits| - 1].pk == pk then Some(hits[|hits| - 1])
    else LastOf(hits[..|hits| - 1], pk)
  }

  ghost function FirstOf(hits: seq<ChunkHit>, pk: Pk): Option<ChunkHit> {
    if hits == [] then None
    else
      var before := FirstOf(hits[..|hits| - 1], pk);
      if before.Some? then before
      else if hits[|hits| - 1].pk == pk then Some(hits[|hits| - 1])
      else None
  }

  lemma {:induction false} LastAndFirst(hits: seq<ChunkHit>, pk: Pk)
    ensures LastOf(hits, pk).Some? <==> pk in Pks(hits)
    ensures FirstOf(hits, pk).Some? <==> pk in Pks(hits)
    ensures LastOf(hits, pk).Some? ==> exists i | 0 <= i < |hits| ::
                hits[i] == LastOf(hits, pk).value && hits[i].pk == pk && forall j | i < j < |hits| :: hits[j].pk != pk
    ensures FirstOf(hits, pk).Some? ==> exists i | 0 <= i < |hits| ::
                hits[i] == FirstOf(hits, pk).value && hits[i].pk == pk && forall j | 0 <= j < i :: hits[j].pk != pk
  {
    if hits != [] {
      var n := |hits| - 1;
      var init := hits[..n];
      LastAndFirst(init, pk);
      assert Pks(hits) == Pks(init) + [hits[n].pk];
      if hits[n].pk != pk && LastOf(init, pk).Some? {
        var i :| 0 <= i < |init| && init[i] == LastOf(init, pk).value && init[i].pk == pk
                 && forall j | i < j < |init| :: init[j].pk != pk;
        assert hits[i] == LastOf(hits, pk).value;
      }
      if FirstOf(init, pk).Some? {
        var i :| 0 <= i < |init| && init[i] == FirstOf(init, pk).value && init[i].pk == pk
                 && forall j | 0 <= j < i :: init[j].pk != pk;
        assert hits[i] == FirstOf(hits, pk).value;
      } else if hits[n].pk == pk {
        forall j | 0 <= j < n ensures hits[j].pk != pk {
          assert Pks(init)[j] == hits[j].pk;
        }
        assert hits[n] == FirstOf(hits, pk).value;
      }
    }
  }

  /** The dense contribution of a key: that of its last dense hit. */
  ghost function DenseGain(hits: seq<ChunkHit>, gain: Option<real> -> real, pk: Pk): real {
    match LastOf(hits, pk)
    case Some(hit) => gain(hit.denseScore)
    case None => 0.0
  }

  /** The sparse contribution of a key: the sum over all its sparse hits. */
  ghost function SparseGain(hits: seq<ChunkHit>, gain: Option<real> -> real, pk: Pk): real {
    if hits == [] then 0.0
    else
      SparseGain(hits[..|hits| - 1], gain, pk)
      + if hits[|hits| - 1].pk == pk then gain(hits[|hits| - 1].sparseScore) else 0.0
  }

  datatype Weights = Weights(dense: real, sparse: real)

  ghost function Score(dense: seq<ChunkHit>, sparse: seq<ChunkHit>, w: Weights, pk: Pk): real {
    DenseGain(dense, Gain(w.dense, DenseScores(dense)), pk)
    + SparseGain(sparse, Gain(w.sparse, SparseScores(sparse)), pk)
  }

  /** The record a key ends up with: the last dense hit if there is one, else the first sparse
      hit, carrying the sparse score of the last sparse hit. */
  ghost predicate Merged(h: ChunkHit, dense: seq<ChunkHit>, sparse: seq<ChunkHit>) {
    var base := if LastOf(dense, h.pk).Some? then LastOf(dense, h.pk) else FirstOf(sparse, h.pk);
    && base.Some? && h.body == base.value.body && h.denseScore == base.value.denseScore
    && h.sparseScore == (if LastOf(sparse, h.pk).Some? then LastOf(sparse, h.pk).value else base.value).sparseScore
  }

  /** A merged hit is right: its fused score and what it carries. */
  ghost predicate Fused(h: ChunkHit, dense: seq<ChunkHit>, sparse: seq<ChunkHit>, w: Weights) {
    h.fusionScore == Some(Score(dense, sparse, w, h.pk)) && Merged(h, dense, sparse)
  }

  /** The state of the merge after some dense and some sparse hits. */
  ghost predicate Scored(h: ChunkHit, dense: seq<ChunkHit>, sparse: seq<ChunkHit>,
                         denseGain: Option<real> -> real, sparseGain: Option<real> -> real) {
    && h.fusionScore == Some(DenseGain(dense, denseGain, h.pk) + SparseGain(sparse, sparseGain, h.pk))
    && Merged(h, dense, sparse)
  }

  lemma {:induction false} AddHit(done: seq<ChunkHit>, hit: ChunkHit, pk: Pk)
    ensures LastOf(done + [hit], pk) == if pk == hit.pk then Some(hit) else LastOf(done, pk)
    ensures FirstOf(done + [hit], pk) ==
            if FirstOf(done, pk).None? && pk == hit.pk then Some(hit) else FirstOf(done, pk)
  {
    assert (done + [hit])[..|done|] == done;
  }

  lemma {:induction false} AddSparse(done: seq<ChunkHit>, hit: ChunkHit, gain: Option<real> -> real, pk: Pk)
    ensures SparseGain(done + [hit], gain, pk) ==
            SparseGain(done, gain, pk) + if pk == hit.pk then gain(hit.sparseScore) else 0.0
  {
    assert (done + [hit])[..|done|] == done;
  }

  lemma {:induction false} NoSparse(hits: seq<ChunkHit>, gain: Option<real> -> real, pk: Pk)
    requires pk !in Pks(hits)
    ensures SparseGain(hits, gain, pk) == 0.0
  {
    if hits != [] {
      assert Pks(hits)[|hits| - 1] == hits[|hits| - 1].pk;
      assert Pks(hits) == Pks(hits[..|hits| - 1]) + [hits[|hits| - 1].pk];
      NoSparse(hits[..|hits| - 1], gain, pk);
    }
  }

  lemma {:induction false} SeenOneMore(pks: seq<Pk>, pk: Pk)
    ensures FirstSeen(pks + [pk]) == if pk in FirstSeen(pks) then FirstSeen(pks) else FirstSeen(pks) + [pk]
  {
    FirstSeenOnce(pks);
    assert (pks + [pk])[..|pks|] == pks;
  }

  /** The dict by_pk and its insertion order, after some dense and some sparse hits. */
  ghost predicate MergeState(byPk: map<Pk, ChunkHit>, order: seq<Pk>,
                             dense: seq<ChunkHit>, sparse: seq<ChunkHit>,
                             denseGain: Option<real> -> real, sparseGain: Option<real> -> real) {
    && order == FirstSeen(Pks(dense) + Pks(sparse))
    && (forall pk :: pk in byPk <==> pk in order)
    && forall pk | pk in byPk :: byPk[pk].pk == pk && Scored(byPk[pk], dense, sparse, denseGain, sparseGain)
  }

  /** A dense hit replaces the record of its key and leaves the others alone. */
  lemma {:induction false} DenseRecord(h: ChunkHit, done: seq<ChunkHit>, hit: ChunkHit,
                                       denseGain: Option<real> -> real, sparseGain: Option<real> -> real)
    requires if h.pk == hit.pk then h == hit.(fusionScore := Some(denseGain(hit.denseScore)))
             else Scored(h, done, [], denseGain, sparseGain)
    ensures Scored(h, done + [hit], [], denseGain, sparseGain)
  {
    AddHit(done, hit, h.pk);
  }

  /** A sparse hit on a key already merged. */
  lemma {:induction false} SparseRecord(was: ChunkHit, h: ChunkHit, dense: seq<ChunkHit>, done: seq<ChunkHit>,
                                        hit: ChunkHit,
                                        denseGain: Option<real> -> real, sparseGain: Option<real> -> real)
    requires Scored(was, dense, done, denseGain, sparseGain)
    requires if was.pk == hit.pk
             then h == was.(sparseScore := hit.sparseScore,
                             fusionScore := Some(was.fusionScore.value + sparseGain(hit.sparseScore)))
             else h == was
    ensures Scored(h, dense, done + [hit], denseGain, sparseGain)
  {
    AddHit(done, hit, h.pk);
    AddSparse(done, hit, sparseGain, h.pk);
  }

  /** The first hit of a key, if it is a sparse one. */
  lemma {:induction false} NewSparseRecord(dense: seq<ChunkHit>, done: seq<ChunkHit>, hit: ChunkHit,
                                           denseGain: Option<real> -> real, sparseGain: Option<real> -> real)
    requires hit.pk !in Pks(dense) && hit.pk !in Pks(done)
    ensures var h := hit.(fusionScore := Some(sparseGain(hit.sparseScore)));
            Scored(h, dense, done + [hit], denseGain, sparseGain)
  {
    AddHit(done, hit, hit.pk);
    AddSparse(done, hit, sparseGain, hit.pk);
    LastAndFirst(dense, hit.pk);
    LastAndFirst(done, hit.pk);
    NoSparse(done, sparseGain, hit.pk);
  }

  lemma {:induction false} DenseOrder(done: seq<ChunkHit>, hit: ChunkHit)
    ensures var order := FirstSeen(Pks(done) + Pks([]));
            FirstSeen(Pks(done + [hit]) + Pks([])) == if hit.pk in order then order else order + [hit.pk]
  {
    assert Pks(done) + Pks([]) == Pks(done);
    MapAdd(PkOf, done, hit);
    assert Pks(done + [hit]) + Pks([]) == Pks(done) + [hit.pk];
    SeenOneMore(Pks(done), hit.pk);
  }

  lemma {:induction false} SparseOrder(dense: seq<ChunkHit>, done: seq<ChunkHit>, hit: ChunkHit)
    ensures var order := FirstSeen(Pks(dense) + Pks(done));
            FirstSeen(Pks(dense) + Pks(done + [hit])) == if hit.pk in order then order else order + [hit.pk]
  {
    MapAdd(PkOf, done, hit);
    assert Pks(dense) + Pks(done + [hit]) == Pks(dense) + Pks(done) + [hit.pk];
    SeenOneMore(Pks(dense) + Pks(done), hit.pk);
  }

  /** list(by_pk.values()). */
  function Records(byPk: map<Pk, ChunkHit>, order: seq<Pk>): (r: seq<ChunkHit>)
    requires forall pk | pk in order :: pk in byPk
    ensures |r| == |order| && forall i | 0 <= i < |order| :: r[i] == byPk[order[i]]
  {
    if order == [] then [] else [byPk[order[0]]] + Records(byPk, order[1..])
  }

  method FuseDense(dense: seq<ChunkHit>, denseGain: Option<real> -> real, ghost sparseGain: Option<real> -> real)
    returns (byPk: map<Pk, ChunkHit>, order: seq<Pk>)
    ensures MergeState(byPk, order, dense, [], denseGain, sparseGain)
  {
    byPk := map[];
    order := [];
    for i := 0 to |dense|
      invariant MergeState(byPk, order, dense[..i], [], denseGain, sparseGain)
    {
      var hit := dense[i];
      ghost var before, done := byPk, dense[..i];
      PrefixStep(dense, i);
      DenseOrder(done, hit);
      if hit.pk !in byPk {
        order := order + [hit.pk];
      }
      byPk := byPk[hit.pk := hit.(fusionScore := Some(denseGain(hit.denseScore)))];
      forall pk | pk in byPk ensures byPk[pk].pk == pk && Scored(byPk[pk], done + [hit], [], denseGain, sparseGain) {
        if pk != hit.pk { assert byPk[pk] == before[pk]; }
        DenseRecord(byPk[pk], done, hit, denseGain, sparseGain);
      }
    }
    assert dense[..|dense|] == dense;
  }

  /** A sparse hit on record `was` of its key, or on none. */
  ghost predicate SparseJoins(was: Option<ChunkHit>, hit: ChunkHit, gain: Option<real> -> real, h: ChunkHit) {
    if was.None? then h == hit.(fusionScore := Some(gain(hit.sparseScore)))
    else
      && was.value.fusionScore.Some?
      && h == was.value.(sparseScore := hit.sparseScore,
                         fusionScore := Some(was.value.fusionScore.value + gain(hit.sparseScore)))
  }

  ghost function At(byPk: map<Pk, ChunkHit>, pk: Pk): Option<ChunkHit> {
    if pk in byPk then Some(byPk[pk]) else None
  }

  lemma {:induction false} SparseNew(byPk: map<Pk, ChunkHit>, order: seq<Pk>, dense: seq<ChunkHit>,
                                     done: seq<ChunkHit>, hit: ChunkHit, denseGain: Option<real> -> real,
                                     gain: Option<real> -> real)
    requires MergeState(byPk, order, dense, done, denseGain, gain) && hit.pk !in byPk
    ensures Scored(hit.(fusionScore := Some(gain(hit.sparseScore))), dense, done + [hit], denseGain, gain)
  {
    FirstSeenOnce(Pks(dense) + Pks(done));
    assert hit.pk !in Pks(dense) + Pks(done);
    NewSparseRecord(dense, done, hit, denseGain, gain);
  }

  lemma {:induction false} SparseStep(byPk: map<Pk, ChunkHit>, order: seq<Pk>, dense: seq<ChunkHit>,
                                      done: seq<ChunkHit>, hit: ChunkHit, denseGain: Option<real> -> real,
                                      gain: Option<real> -> real, h: ChunkHit)
    requires MergeState(byPk, order, dense, done, denseGain, gain)
    requires SparseJoins(At(byPk, hit.pk), hit, gain, h)
    ensures MergeState(byPk[hit.pk := h], if hit.pk in byPk then order else order + [hit.pk],
                       dense, done + [hit], denseGain, gain)
  {
    SparseOrder(dense, done, hit);
    var byPk' := byPk[hit.pk := h];
    forall pk | pk in byPk' ensures byPk'[pk].pk == pk && Scored(byPk'[pk], dense, done + [hit], denseGain, gain) {
      if pk in byPk {
        SparseRecord(byPk[pk], byPk'[pk], dense, done, hit, denseGain, gain);
      } else {
        SparseNew(byPk, order, dense, done, hit, denseGain, gain);
      }
    }
  }

  /** One sparse hit joins the merge. */
  method MergeSparse(before: map<Pk, ChunkHit>, orderBefore: seq<Pk>, hit: ChunkHit, gain: Option<real> -> real,
                     ghost dense: seq<ChunkHit>, ghost done: seq<ChunkHit>, ghost denseGain: Option<real> -> real)
    returns (byPk: map<Pk, ChunkHit>, order: seq<Pk>)
    requires MergeState(before, orderBefore, dense, done, denseGain, gain)
    ensures MergeState(byPk, order, dense, done + [hit], denseGain, gain)
  {
    var h := hit.(fusionScore := Some(gain(hit.sparseScore)));
    if hit.pk in before {
      var existing := before[hit.pk];
      assert Scored(existing, dense, done, denseGain, gain);
      var score := if existing.fusionScore.Some? then existing.fusionScore.value else 0.0;
      h := existing.(sparseScore := hit.sparseScore, fusionScore := Some(score + gain(hit.sparseScore)));
    }
    SparseStep(before, orderBefore, dense, done, hit, denseGain, gain, h);
    order := if hit.pk in before then orderBefore else orderBefore + [hit.pk];
    byPk := before[hit.pk := h];
  }

  method FuseSparse(before: map<Pk, ChunkHit>, orderBefore: seq<Pk>, sparse: seq<ChunkHit>,
                    gain: Option<real> -> real, ghost dense: seq<ChunkHit>, ghost denseGain: Option<real> -> real)
    returns (byPk: map<Pk, ChunkHit>, order: seq<Pk>)
    requires MergeState(before, orderBefore, dense, [], denseGain, gain)
    ensures MergeState(byPk, order, dense, sparse, denseGain, gain)
  {
    byPk, order := before, orderBefore;
    for i := 0 to |sparse|
      invariant MergeState(byPk, order, dense, sparse[..i], denseGain, gain)
    {
      PrefixStep(sparse, i);
      byPk, order := MergeSparse(byPk, order, sparse[i], gain, dense, sparse[..i], denseGain);
    }
    WholePrefix(sparse);
  }

  /** The records in order of their keys, each with both channels' gains. */
  lemma {:induction false} RecordsScored(byPk: map<Pk, ChunkHit>, order: seq<Pk>, dense: seq<ChunkHit>,
                                         sparse: seq<ChunkHit>,
                                         denseGain: Option<real> -> real, sparseGain: Option<real> -> real)
    requires MergeState(byPk, order, dense, sparse, denseGain, sparseGain)
    ensures Pks(Records(byPk, order)) == FirstSeen(Pks(dense) + Pks(sparse))
    ensures forall h | h in Records(byPk, order) :: Scored(h, dense, sparse, denseGain, sparseGain)
  {
    var fused := Records(byPk, order);
    forall i | 0 <= i < |fused| ensures fused[i].pk == order[i] {
      assert order[i] in byPk;
    }
    assert Pks(fused) == order;
    forall h | h in fused ensures Scored(h, dense, sparse, denseGain, sparseGain) {
      var i :| 0 <= i < |fused| && fused[i] == h;
      assert order[i] in byPk;
    }
  }

  lemma ScoredIsFused(h: ChunkHit, dense: seq<ChunkHit>, sparse: seq<ChunkHit>, w: Weights)
    requires Scored(h, dense, sparse, Gain(w.dense, DenseScores(dense)), Gain(w.sparse, SparseScores(sparse)))
    ensures Fused(h, dense, sparse, w)
  {}

  method Fuse(dense: seq<ChunkHit>, sparse: seq<ChunkHit>, w: Weights) returns (fused: seq<ChunkHit>)
    ensures Pks(fused) == FirstSeen(Pks(dense) + Pks(sparse))
    ensures forall i | 0 <= i < |fused| :: Fused(fused[i], dense, sparse, w)
  {
    var denseGain, sparseGain := Gain(w.dense, DenseScores(dense)), Gain(w.sparse, SparseScores(sparse));
    var byPk, order := FuseDense(dense, denseGain, sparseGain);
    byPk, order := FuseSparse(byPk, order, sparse, sparseGain, dense, denseGain);
    fused := Records(byPk, order);
    RecordsScored(byPk, order, dense, sparse, denseGain, sparseGain);
    forall i | 0 <= i < |fused| ensures Fused(fused[i], dense, sparse, w) {
      ScoredIsFused(fused[i], dense, sparse, w);
    }
  }

  // The whole search

  /** NoCandidates is the error raised when neither channel returned a hit. */
  datatype SearchOutcome = Hits(hits: seq<ChunkHit>, denseCount: nat, sparseCount: nat) | NoCandidates

  function SortKey(h: ChunkHit): real {
    -(if h.fusionScore.Some? then h.fusionScore.value else 0.0)
  }

  /** A ranked key with its score: what a search result says, apart from the carried fields. */
  datatype Ranked = Ranked(pk: Pk, score: real)

  function RankKey(r: Ranked): real { -r.score }

  ghost function Rank(h: ChunkHit): Ranked { Ranked(h.pk, -SortKey(h)) }

  ghost function ScoreOf(dense: seq<ChunkHit>, sparse: seq<ChunkHit>, w: Weights): Pk -> Ranked {
    pk => Ranked(pk, Score(dense, sparse, w, pk))
  }

  /** The keys that were hit, each with its score. */
  ghost function Scores(dense: seq<ChunkHit>, sparse: seq<ChunkHit>, w: Weights): seq<Ranked> {
    Map(ScoreOf(dense, sparse, w), FirstSeen(Pks(dense) + Pks(sparse)))
  }

  /** The same, best first, ties in the order first seen. */
  ghost function Ranking(dense: seq<ChunkHit>, sparse: seq<ChunkHit>, w: Weights): seq<Ranked> {
    SortBy(Scores(dense, sparse, w), RankKey)
  }

  lemma {:induction false} FusedScores(fused: seq<ChunkHit>, dense: seq<ChunkHit>, sparse: seq<ChunkHit>, w: Weights)
    requires Pks(fused) == FirstSeen(Pks(dense) + Pks(sparse))
    requires forall i | 0 <= i < |fused| :: Fused(fused[i], dense, sparse, w)
    ensures Map(Rank, fused) == Scores(dense, sparse, w)
  {
    var pks, f := Pks(fused), ScoreOf(dense, sparse, w);
    forall i | 0 <= i < |fused| ensures Map(Rank, fused)[i] == Map(f, pks)[i] {
      assert pks[i] == fused[i].pk && Fused(fused[i], dense, sparse, w);
    }
    assert Map(Rank, fused) == Map(f, pks);
  }

  lemma {:induction false} FusedRanking(fused: seq<ChunkHit>, dense: seq<ChunkHit>, sparse: seq<ChunkHit>,
                                        w: Weights, k: int)
    requires Pks(fused) == FirstSeen(Pks(dense) + Pks(sparse))
    requires forall i | 0 <= i < |fused| :: Fused(fused[i], dense, sparse, w)
    ensures Map(Rank, Upto(SortBy(fused, SortKey), k)) == Upto(Ranking(dense, sparse, w), k)
    ensures forall h | h in Upto(SortBy(fused, SortKey), k) :: Fused(h, dense, sparse, w)
  {
    var sorted := SortBy(fused, SortKey);
    FusedScores(fused, dense, sparse, w);
    SortRanks(fused);
    MapUpto(Rank, sorted, k);
    SortByIn(fused, SortKey);
    forall h | h in Upto(sorted, k) ensures Fused(h, dense, sparse, w) {
      assert h in sorted;
      var i :| 0 <= i < |fused| && fused[i] == h;
    }
  }

  /** None is a channel that raised RetrievalError. */
  method HybridSearch(denseChannel: Option<seq<ChunkHit>>, sparseChannel: Option<seq<ChunkHit>>,
                      w: Weights, candidateK: int)
    returns (r: SearchOutcome)
    ensures var dense := if denseChannel.Some? then denseChannel.value else [];
            var sparse := if sparseChannel.Some? then sparseChannel.value else [];
            && (r.NoCandidates? <==> dense == [] && sparse == [])
            && (r.Hits? ==>
                  && Map(Rank, r.hits) == Upto(Ranking(dense, sparse, w), candidateK)
                  && (forall h | h in r.hits :: Fused(h, dense, sparse, w))
                  && r.denseCount == |dense| && r.sparseCount == |sparse|)
  {
    var dense := if denseChannel.Some? then denseChannel.value else [];
    var sparse := if sparseChannel.Some? then sparseChannel.value else [];
    if dense == [] && sparse == [] {
      return NoCandidates;
    }
    var fused := Fuse(dense, sparse, w);
    var sorted := SortBy(fused, SortKey);
    FusedRanking(fused, dense, sparse, w, candidateK);
    return Hits(Upto(sorted, candidateK), |dense|, |sparse|);
  }

  lemma {:induction false} InsertRank(h: ChunkHit, hits: seq<ChunkHit>)
    ensures Map(Rank, Insert(h, hits, SortKey)) == Insert(Rank(h), Map(Rank, hits), RankKey)
  {
    if hits != [] && SortKey(h) > SortKey(hits[0]) {
      InsertRank(h, hits[1..]);
      assert Map(Rank, hits)[1..] == Map(Rank, hits[1..]);
      assert Map(Rank, Insert(h, hits, SortKey)) == [Rank(hits[0])] + Map(Rank, Insert(h, hits[1..], SortKey));
    } else {
      assert Map(Rank, [h] + hits) == [Rank(h)] + Map(Rank, hits);
    }
  }

  lemma {:induction false} SortRanks(hits: seq<ChunkHit>)
    ensures Map(Rank, SortBy(hits, SortKey)) == SortBy(Map(Rank, hits), RankKey)
  {
    if hits != [] {
      SortRanks(hits[1..]);
      assert Map(Rank, hits)[1..] == Map(Rank, hits[1..]);
      InsertRank(hits[0], SortBy(hits[1..], SortKey));
    }
  }

  lemma {:induction false} ScoresOnce(dense: seq<ChunkHit>, sparse: seq<ChunkHit>, w: Weights)
    ensures Distinct(Scores(dense, sparse, w))
    ensures forall r :: r in Scores(dense, sparse, w) <==>
              (r.pk in Pks(dense) || r.pk in Pks(sparse)) && r.score == Score(dense, sparse, w, r.pk)
  {
    var pks := FirstSeen(Pks(dense) + Pks(sparse));
    var scores := Scores(dense, sparse, w);
    FirstSeenOnce(Pks(dense) + Pks(sparse));
    forall r ensures r in scores <==> r.pk in pks && r.score == Score(dense, sparse, w, r.pk) {
      if r.pk in pks && r.score == Score(dense, sparse, w, r.pk) {
        var i :| 0 <= i < |pks| && pks[i] == r.pk;
        assert scores[i] == r;
      }
    }
  }

  /** A result lists each hit key once with its score, best first, and no key that was cut
      beats one that was kept. */
  lemma {:induction false} RankingIsBest(dense: seq<ChunkHit>, sparse: seq<ChunkHit>, w: Weights, k: int)
    ensures var all, kept := Ranking(dense, sparse, w), Upto(Ranking(dense, sparse, w), k);
            && (forall r :: r in all <==>
                  (r.pk in Pks(dense) || r.pk in Pks(sparse)) && r.score == Score(dense, sparse, w, r.pk))
            && (forall i, j | 0 <= i < j < |all| :: all[i].score >= all[j].score && all[i].pk != all[j].pk)
            && (forall r, c | r in kept && c in all && c !in kept :: r.score >= c.score)
            && (k >= 0 ==> |kept| == Min(k, |all|))
  {
    var scores, all, kept := Scores(dense, sparse, w), Ranking(dense, sparse, w), Upto(Ranking(dense, sparse, w), k);
    ScoresOnce(dense, sparse, w);
    SortByIn(scores, RankKey);
    SortByIsStable(scores, RankKey);
    SortByMultiset(scores, RankKey);
    PermutationDistinct(scores, all);
    forall i, j | 0 <= i < j < |all| ensures all[i].score >= all[j].score && all[i].pk != all[j].pk {
      assert RankKey(all[i]) <= RankKey(all[j]);
      assert all[i] in scores && all[j] in scores && all[i] != all[j];
    }
    KeptBeatCut(all, RankKey, k);
    forall r, c | r in kept && c in all && c !in kept ensures r.score >= c.score {
      assert RankKey(r) <= RankKey(c);
    }
  }

  lemma {:induction false} FirstSeenOrder(pks: seq<Pk>)
    ensures InFirstOrder(FirstSeen(pks), pks)
  {
    if pks != [] {
      var init, pk := pks[..|pks| - 1], pks[|pks| - 1];
      FirstSeenOrder(init);
      FirstSeenOnce(init);
      FirstOrderOnwards(FirstSeen(init), init, pk);
      assert pks == init + [pk];
    }
  }

  /** Where the key of a ranked hit is first hit. */
  function PlaceIn(pks: seq<Pk>): Ranked -> int { (r: Ranked) => FirstAt(pks, r.pk) }

  /** Keys with equal scores stand in the order in which they were first hit. */
  lemma {:induction false} TiesAreStable(dense: seq<ChunkHit>, sparse: seq<ChunkHit>, w: Weights, i: nat, j: nat)
    requires i < j < |Ranking(dense, sparse, w)|
    ensures var all, pks := Ranking(dense, sparse, w), Pks(dense) + Pks(sparse);
            all[i].score > all[j].score
            || (all[i].score == all[j].score && FirstAt(pks, all[i].pk) < FirstAt(pks, all[j].pk))
  {
    var pks, scores := Pks(dense) + Pks(sparse), Scores(dense, sparse, w);
    FirstSeenOrder(pks);
    forall a, b | 0 <= a < b < |scores| ensures PlaceIn(pks)(scores[a]) < PlaceIn(pks)(scores[b]) {
      assert FirstAt(pks, FirstSeen(pks)[a]) < FirstAt(pks, FirstSeen(pks)[b]);
    }
    SortKeepsOrder(scores, RankKey, PlaceIn(pks));
    assert InOrder(Ranking(dense, sparse, w), RankKey, PlaceIn(pks));
  }

  /** With keys distinct inside each channel, a key's score is the two weighted normalised
      scores added, a missing channel counting 0. */
  lemma {:induction false} DistinctKeysScore(dense: seq<ChunkHit>, sparse: seq<ChunkHit>, w: Weights, i: nat, j: nat)
    requires Distinct(Pks(dense)) && Distinct(Pks(sparse))
    ensures i < |dense| && j < |sparse| && dense[i].pk == sparse[j].pk ==>
              Score(dense, sparse, w, dense[i].pk) ==
              Times(w.dense, Norm(DenseScores(dense), dense[i].denseScore))
              + Times(w.sparse, Norm(SparseScores(sparse), sparse[j].sparseScore))
    ensures i < |dense| && dense[i].pk !in Pks(sparse) ==>
              Score(dense, sparse, w, dense[i].pk) == Times(w.dense, Norm(DenseScores(dense), dense[i].denseScore))
    ensures j < |sparse| && sparse[j].pk !in Pks(dense) ==>
              Score(dense, sparse, w, sparse[j].pk) ==
              Times(w.sparse, Norm(SparseScores(sparse), sparse[j].sparseScore))
  {
    if i < |dense| {
      DistinctDense(dense, i);
      if dense[i].pk !in Pks(sparse) { NoSparse(sparse, Gain(w.sparse, SparseScores(sparse)), dense[i].pk); }
    }
    if j < |sparse| {
      DistinctSparse(sparse, Gain(w.sparse, SparseScores(sparse)), j);
      var pk := sparse[j].pk;
      LastAndFirst(dense, pk);
    }
  }

  lemma {:induction false} DistinctDense(hits: seq<ChunkHit>, i: nat)
    requires Distinct(Pks(hits)) && i < |hits|
    ensures LastOf(hits, hits[i].pk) == Some(hits[i])
  {
    var pks := Pks(hits);
    LastAndFirst(hits, hits[i].pk);
    assert pks[i] == hits[i].pk;
    var k :| 0 <= k < |hits| && hits[k] == LastOf(hits, hits[i].pk).value && hits[k].pk == hits[i].pk;
    assert pks[k] == pks[i];
  }

  lemma {:induction false} DistinctSparse(hits: seq<ChunkHit>, gain: Option<real> -> real, j: nat)
    requires Distinct(Pks(hits)) && j < |hits|
    ensures SparseGain(hits, gain, hits[j].pk) == gain(hits[j].sparseScore)
  {
    var n := |hits| - 1;
    var init, pks := hits[..n], Pks(hits);
    assert pks == Pks(init) + [hits[n].pk];
    assert pks[j] == hits[j].pk && pks[n] == hits[n].pk;
    if j < n {
      assert Pks(init) == pks[..n];
      DistinctSparse(init, gain, j);
    } else {
      NoSparse(init, gain, hits[j].pk);
    }
  }

  // A key that the sparse channel hit several times

  /** Hit j is the key's last. */
  ghost predicate LastSparse(hits: seq<ChunkHit>, pk: Pk, j: nat) {
    j < |hits| && hits[j].pk == pk && forall i | j < i < |hits| :: hits[i].pk != pk
  }

  /** The sum over a key's sparse hits: those before the last one, and the last one. */
  lemma {:induction false} SparseUpTo(hits: seq<ChunkHit>, gain: Option<real> -> real, pk: Pk, j: nat)
    requires LastSparse(hits, pk, j)
    ensures SparseGain(hits, gain, pk) == SparseGain(hits[..j], gain, pk) + gain(hits[j].sparseScore)
  {
    var n := |hits| - 1;
    if j < n {
      assert hits[..n][..j] == hits[..j];
      SparseUpTo(hits[..n], gain, pk, j);
    }
  }

  lemma {:induction false} SparseZero(hits: seq<ChunkHit>, gain: Option<real> -> real, pk: Pk)
    requires forall i | 0 <= i < |hits| :: gain(hits[i].sparseScore) >= 0.0
    ensures SparseGain(hits, gain, pk) >= 0.0
    ensures SparseGain(hits, gain, pk) == 0.0 <==>
            forall i | 0 <= i < |hits| && hits[i].pk == pk :: gain(hits[i].sparseScore) == 0.0
  {
    if hits != [] {
      var n := |hits| - 1;
      SparseZero(hits[..n], gain, pk);
      assert forall i | 0 <= i < n :: hits[..n][i] == hits[i];
    }
  }

  lemma GainSign(weight: real, sparse: seq<ChunkHit>, i: nat)
    requires weight > 0.0 && i < |sparse|
    ensures var score, gain := sparse[i].sparseScore, Gain(weight, SparseScores(sparse));
            && gain(score) >= 0.0
            && (gain(score) == 0.0 <==> Norm(SparseScores(sparse), score) == 0.0)
  {
    var pool, score := SparseScores(sparse), sparse[i].sparseScore;
    assert pool[i] == score;
    if score.Some? { NormIsMinMax(pool, score.value, score.value); }
    if Norm(pool, score) > 0.0 { TimesPositive(weight, Norm(pool, score)); }
  }

  /** A key's score is one term for each channel, that of its last hit there, exactly when its
      earlier sparse hits add nothing; with a positive weight, when each of them normalises
      to 0. */
  lemma {:induction false} TwoTermsExactlyWhen(dense: seq<ChunkHit>, sparse: seq<ChunkHit>, w: Weights, pk: Pk, j: nat)
    requires LastSparse(sparse, pk, j)
    ensures var gain, norms := Gain(w.sparse, SparseScores(sparse)), SparseScores(sparse);
            var twoTerms := DenseGain(dense, Gain(w.dense, DenseScores(dense)), pk)
                            + Times(w.sparse, Norm(norms, sparse[j].sparseScore));
            && (Score(dense, sparse, w, pk) == twoTerms <==> SparseGain(sparse[..j], gain, pk) == 0.0)
            && (w.sparse > 0.0 ==>
                  Score(dense, sparse, w, pk) >= twoTerms
                  && (Score(dense, sparse, w, pk) == twoTerms <==>
                      forall i | 0 <= i < j && sparse[i].pk == pk :: Norm(norms, sparse[i].sparseScore) == 0.0))
  {
    var gain := Gain(w.sparse, SparseScores(sparse));
    SparseUpTo(sparse, gain, pk, j);
    if w.sparse > 0.0 {
      forall i: nat | i < j
        ensures gain(sparse[i].sparseScore) >= 0.0
        ensures gain(sparse[i].sparseScore) == 0.0 <==> Norm(SparseScores(sparse), sparse[i].sparseScore) == 0.0
      {
        GainSign(w.sparse, sparse, i);
      }
      assert forall i | 0 <= i < j :: sparse[..j][i] == sparse[i];
      SparseZero(sparse[..j], gain, pk);
    }
  }

  // Scale freedom

  /** A change of units: x becomes a * x + b with a positive. */
  ghost predicate PositiveAffine(f: real -> real) {
    exists a: real, b: real :: a > 0.0 && Scales(f, a, b)
  }

  ghost predicate Scales(f: real -> real, a: real, b: real) {
    forall x: real :: f(x) == a * x + b
  }

  ghost predicate Monotone(f: real -> real) {
    forall x, y :: x <= y <==> f(x) <= f(y)
  }

  ghost predicate RatioKept(f: real -> real, x: real, lo: real, hi: real) {
    lo < hi ==> f(hi) - f(lo) != 0.0 && Over(f(x) - f(lo), f(hi) - f(lo)) == Over(x - lo, hi - lo)
  }

  lemma ScaledDifference(f: real -> real, a: real, b: real, x: real, y: real)
    requires Scales(f, a, b)
    ensures f(x) - f(y) == Times(a, x - y)
  {
    assert f(x) == a * x + b && f(y) == a * y + b;
  }

  lemma AffineIsMonotone(f: real -> real)
    requires PositiveAffine(f)
    ensures Monotone(f)
  {
    var a: real, b: real :| a > 0.0 && Scales(f, a, b);
    forall x, y ensures x <= y <==> f(x) <= f(y) {
      ScaledDifference(f, a, b, x, y);
      ScaledDifference(f, a, b, y, x);
      if x < y { TimesPositive(a, y - x); }
      if y < x { TimesPositive(a, x - y); }
    }
  }

  lemma AffineKeepsRatio(f: real -> real, x: real, lo: real, hi: real)
    requires PositiveAffine(f)
    ensures RatioKept(f, x, lo, hi)
  {
    var a: real, b: real :| a > 0.0 && Scales(f, a, b);
    ScaledDifference(f, a, b, x, lo);
    ScaledDifference(f, a, b, hi, lo);
    if lo < hi { CommonFactor(a, x - lo, hi - lo); }
  }

  function Lift(f: real -> real, s: Option<real>): Option<real> {
    if s.Some? then Some(f(s.value)) else None
  }

  function Rescale(pool: seq<Option<real>>, f: real -> real): seq<Option<real>> {
    if pool == [] then [] else Rescale(pool[..|pool| - 1], f) + [Lift(f, pool[|pool| - 1])]
  }

  lemma {:induction false} RescaledMembers(pool: seq<Option<real>>, f: real -> real)
    ensures |Rescale(pool, f)| == |pool|
    ensures forall i | 0 <= i < |pool| :: Rescale(pool, f)[i] == Lift(f, pool[i])
  {
    if pool != [] {
      RescaledMembers(pool[..|pool| - 1], f);
    }
  }

  lemma {:induction false} MonotoneExtremes(p: seq<real>, p': seq<real>, f: real -> real)
    requires p != [] && Monotone(f)
    requires forall x | x in p :: f(x) in p'
    requires forall y | y in p' :: exists x | x in p :: f(x) == y
    ensures p' != []
    ensures MinOf(p') == f(MinOf(p)) && MaxOf(p') == f(MaxOf(p))
  {
    var first := p[0];
    assert first in p;
    assert f(first) in p';
    assert MinOf(p') in p' && MaxOf(p') in p';
    var l :| l in p && f(l) == MinOf(p');
    var h :| h in p && f(h) == MaxOf(p');
    assert MinOf(p) <= l && h <= MaxOf(p);
    assert f(MinOf(p)) in p' && f(MaxOf(p)) in p';
  }

  lemma {:induction false} RescaledPresent(pool: seq<Option<real>>, f: real -> real)
    ensures forall x | x in Present(pool) :: f(x) in Present(Rescale(pool, f))
    ensures forall y | y in Present(Rescale(pool, f)) :: exists x | x in Present(pool) :: f(x) == y
  {
    var p, p' := Present(pool), Present(Rescale(pool, f));
    RescaledMembers(pool, f);
    PresentIn(pool);
    PresentIn(Rescale(pool, f));
    forall x | x in p ensures f(x) in p' {
      var y := f(x);
      var i :| 0 <= i < |pool| && pool[i] == Some(x);
      assert Rescale(pool, f)[i] == Some(y);
      assert y in p';
    }
    forall y | y in p' ensures exists x | x in p :: f(x) == y {
      var i :| 0 <= i < |pool| && Rescale(pool, f)[i] == Some(y);
      var x := pool[i].value;
      assert pool[i] == Some(x);
      assert x in p && f(x) == y;
    }
  }

  lemma {:induction false} RescaledExtremes(pool: seq<Option<real>>, x: real, f: real -> real)
    requires Monotone(f) && Some(x) in pool
    ensures Some(f(x)) in Rescale(pool, f)
    ensures Present(pool) != [] && Present(Rescale(pool, f)) != []
    ensures MinOf(Present(Rescale(pool, f))) == f(MinOf(Present(pool)))
    ensures MaxOf(Present(Rescale(pool, f))) == f(MaxOf(Present(pool)))
  {
    RescaledMembers(pool, f);
    var i :| 0 <= i < |pool| && pool[i] == Some(x);
    assert Rescale(pool, f)[i] == Some(f(x));
    PresentIn(pool);
    RescaledPresent(pool, f);
    MonotoneExtremes(Present(pool), Present(Rescale(pool, f)), f);
  }

  lemma {:induction false} SameNorm(pool: seq<Option<real>>, pool': seq<Option<real>>, x: real, x': real,
                                    lo: real, hi: real, lo': real, hi': real)
    requires Some(x) in pool && Some(x') in pool'
    requires Present(pool) != [] && lo == MinOf(Present(pool)) && hi == MaxOf(Present(pool))
    requires Present(pool') != [] && lo' == MinOf(Present(pool')) && hi' == MaxOf(Present(pool'))
    requires lo == hi <==> lo' == hi'
    requires lo != hi ==> Over(x' - lo', hi' - lo') == Over(x - lo, hi - lo)
    ensures Norm(pool', Some(x')) == Norm(pool, Some(x))
  {
    NormOf(pool, x);
    NormOf(pool', x');
  }

  lemma {:induction false} RescaledNorm(pool: seq<Option<real>>, s: Option<real>, f: real -> real)
    requires PositiveAffine(f) && s in pool
    ensures Norm(Rescale(pool, f), Lift(f, s)) == Norm(pool, s)
  {
    if s.Some? {
      var x := s.value;
      AffineIsMonotone(f);
      RescaledExtremes(pool, x, f);
      var lo, hi := MinOf(Present(pool)), MaxOf(Present(pool));
      AffineKeepsRatio(f, x, lo, hi);
      assert lo <= hi;
      SameNorm(pool, Rescale(pool, f), x, f(x), lo, hi, f(lo), f(hi));
    }
  }

  lemma {:induction false} RescaledDense(hits: seq<ChunkHit>, hits': seq<ChunkHit>,
                                         gain: Option<real> -> real, gain': Option<real> -> real, pk: Pk)
    requires |hits| == |hits'|
    requires forall i | 0 <= i < |hits| ::
               hits'[i].pk == hits[i].pk && gain'(hits'[i].denseScore) == gain(hits[i].denseScore)
    ensures DenseGain(hits', gain', pk) == DenseGain(hits, gain, pk)
  {
    if hits != [] {
      RescaledDense(hits[..|hits| - 1], hits'[..|hits| - 1], gain, gain', pk);
    }
  }

  lemma {:induction false} RescaledSparse(hits: seq<ChunkHit>, hits': seq<ChunkHit>,
                                          gain: Option<real> -> real, gain': Option<real> -> real, pk: Pk)
    requires |hits| == |hits'|
    requires forall i | 0 <= i < |hits| ::
               hits'[i].pk == hits[i].pk && gain'(hits'[i].sparseScore) == gain(hits[i].sparseScore)
    ensures SparseGain(hits', gain', pk) == SparseGain(hits, gain, pk)
  {
    if hits != [] {
      RescaledSparse(hits[..|hits| - 1], hits'[..|hits| - 1], gain, gain', pk);
    }
  }

  /** The ranking does not depend on the units of either channel: change the units of each
      channel's raw scores and keys, fused scores and order stay the same. */
  lemma {:induction false} ScaleFree(dense: seq<ChunkHit>, dense': seq<ChunkHit>, sparse: seq<ChunkHit>,
                                     sparse': seq<ChunkHit>,
                                     w: Weights, f: real -> real, g: real -> real)
    requires PositiveAffine(f) && PositiveAffine(g) && |dense| == |dense'| && |sparse| == |sparse'|
    requires forall i | 0 <= i < |dense| ::
               dense'[i].pk == dense[i].pk && dense'[i].denseScore == Lift(f, dense[i].denseScore)
    requires forall i | 0 <= i < |sparse| ::
               sparse'[i].pk == sparse[i].pk && sparse'[i].sparseScore == Lift(g, sparse[i].sparseScore)
    ensures Ranking(dense', sparse', w) == Ranking(dense, sparse, w)
  {
    var d, d', s, s' := DenseScores(dense), DenseScores(dense'), SparseScores(sparse), SparseScores(sparse');
    RescaledMembers(d, f);
    RescaledMembers(s, g);
    assert d' == Rescale(d, f) && s' == Rescale(s, g);
    forall i | 0 <= i < |dense|
      ensures Gain(w.dense, d')(dense'[i].denseScore) == Gain(w.dense, d)(dense[i].denseScore)
    {
      assert d[i] == dense[i].denseScore;
      RescaledNorm(d, dense[i].denseScore, f);
    }
    forall i | 0 <= i < |sparse|
      ensures Gain(w.sparse, s')(sparse'[i].sparseScore) == Gain(w.sparse, s)(sparse[i].sparseScore)
    {
      assert s[i] == sparse[i].sparseScore;
      RescaledNorm(s, sparse[i].sparseScore, g);
    }
    SameScores(dense, dense', sparse, sparse', w);
  }

  lemma {:induction false} SameScores(dense: seq<ChunkHit>, dense': seq<ChunkHit>, sparse: seq<ChunkHit>,
                                      sparse': seq<ChunkHit>,
                                      w: Weights)
    requires |dense| == |dense'| && |sparse| == |sparse'|
    requires forall i | 0 <= i < |dense| :: dense'[i].pk == dense[i].pk
               && Gain(w.dense, DenseScores(dense'))(dense'[i].denseScore) ==
                   Gain(w.dense, DenseScores(dense))(dense[i].denseScore)
    requires forall i | 0 <= i < |sparse| :: sparse'[i].pk == sparse[i].pk
               && Gain(w.sparse, SparseScores(sparse'))(sparse'[i].sparseScore) ==
                   Gain(w.sparse, SparseScores(sparse))(sparse[i].sparseScore)
    ensures Ranking(dense', sparse', w) == Ranking(dense, sparse, w)
  {
    assert Pks(dense') == Pks(dense) && Pks(sparse') == Pks(sparse);
    forall pk ensures Score(dense', sparse', w, pk) == Score(dense, sparse, w, pk) {
      RescaledDense(dense, dense', Gain(w.dense, DenseScores(dense)), Gain(w.dense, DenseScores(dense')), pk);
      RescaledSparse(sparse, sparse', Gain(w.sparse, SparseScores(sparse)), Gain(w.sparse, SparseScores(sparse')), pk);
    }
    assert Scores(dense', sparse', w) == Scores(dense, sparse, w);
  }
}
