/** Queries of a region map: a request is answered with pieces on which the map is constant. */
module RegionQueries {
  datatype Piece<K, V> = Piece(box: set<K>, value: V)

  ghost predicate InSome<K, V>(pieces: seq<Piece<K, V>>, p: K) {
    exists i :: 0 <= i < |pieces| && p in pieces[i].box
  }

  ghost predicate PieceOk<K, V>(m: map<K, V>, request: set<K>, piece: Piece<K, V>) {
    && piece.box != {} && piece.box <= request
    && forall p :: p in piece.box ==> p in m && m[p] == piece.value
  }

  /**
    * The pieces are disjoint, non-empty, cover the request and carry the value that the map has on all of their cells.
    */
  ghost predicate Pieces<K, V>(m: map<K, V>, request: set<K>, pieces: seq<Piece<K, V>>) {
    && (forall i :: 0 <= i < |pieces| ==> PieceOk(m, request, pieces[i]))
    && Apart(pieces)
    && (forall p :: p in request ==> InSome(pieces, p))
  }

  lemma OneMorePiece<K, V>(m: map<K, V>, request: set<K>, pieces: seq<Piece<K, V>>, box: set<K>, v: V)
    requires Pieces(m, request, pieces) && box != {} && box !! request
    requires forall p :: p in box ==> p in m && m[p] == v
    ensures Pieces(m, request + box, pieces + [Piece(box, v)])
  {
    var pieces' := pieces + [Piece(box, v)];
    forall i | 0 <= i < |pieces'|
      ensures PieceOk(m, request + box, pieces'[i])
    {
      if i < |pieces| { assert PieceOk(m, request, pieces[i]); }
    }
    forall i | 0 <= i < |pieces|
      ensures pieces[i].box !! box
    {
      assert PieceOk(m, request, pieces[i]);
    }
    OneMoreApart(pieces, Piece(box, v));
    OneMoreCovered(pieces, box, v, request);
  }

  ghost predicate Apart<K, V>(pieces: seq<Piece<K, V>>) {
    forall i, j :: 0 <= i < j < |pieces| ==> pieces[i].box !! pieces[j].box
  }

  lemma OneMoreApart<K, V>(pieces: seq<Piece<K, V>>, piece: Piece<K, V>)
    requires Apart(pieces) && forall i :: 0 <= i < |pieces| ==> pieces[i].box !! piece.box
    ensures Apart(pieces + [piece])
  {
    var pieces' := pieces + [piece];
    forall i, j | 0 <= i < j < |pieces'|
      ensures pieces'[i].box !! pieces'[j].box
    {
      assert pieces'[i] == pieces[i];
      if j < |pieces| { assert pieces'[j] == pieces[j]; }
    }
  }

  lemma OneMoreCovered<K, V>(pieces: seq<Piece<K, V>>, box: set<K>, v: V, request: set<K>)
    requires forall p :: p in request ==> InSome(pieces, p)
    ensures forall p :: p in request + box ==> InSome(pieces + [Piece(box, v)], p)
  {
    var pieces' := pieces + [Piece(box, v)];
    forall p | p in request + box
      ensures InSome(pieces', p)
    {
      if p in box {
        assert pieces'[|pieces|].box == box;
      } else {
        var i :| 0 <= i < |pieces| && p in pieces[i].box;
        assert pieces'[i] == pieces[i];
      }
    }
  }

  lemma NoPieces<K, V>(m: map<K, V>)
    ensures forall s: set<K> :: s == {} ==> Pieces(m, s, [])
  {
  }

  /** Any decomposition of a request into pieces of one value each; which one is left open. */
  method RegionValues<K(==), V(==)>(m: map<K, V>, request: set<K>) returns (pieces: seq<Piece<K, V>>)
    requires request <= m.Keys
    ensures Pieces(m, request, pieces)
  {
    hide Pieces;
    pieces := [];
    NoPieces(m);
    var remaining := request;
    while remaining != {}
      invariant remaining <= request
      invariant Pieces(m, request - remaining, pieces)
    {
      var p :| p in remaining;
      var same := set q | q in remaining && m[q] == m[p];
      assert p in same;
      var box :| box <= same && p in box;
      OneMorePiece(m, request - remaining, pieces, box, m[p]);
      assert request - (remaining - box) == request - remaining + box;
      pieces := pieces + [Piece(box, m[p])];
      remaining := remaining - box;
    }
    assert request - remaining == request;
  }
}
