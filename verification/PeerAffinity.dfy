/** Rendezvous hashing of conversations to peers (proxy/peer_affinity.go), over any score function. */
module PeerAffinity {
  // How many requests are out at a peer, beside its id.  Peers are identified by their id.
  class Member {
    const id: string
    var inFlight: int

    constructor (id: string)
      ensures this.id == id && inFlight == 0
    {
      this.id, inFlight := id, 0;
    }
  }

  // Lexicographic order of peer ids.
  predicate Less(a: string, b: string) {
    b != [] && (a == [] || a[0] < b[0] || (a[0] == b[0] && Less(a[1..], b[1..])))
  }

  lemma {:induction false} LessIsTotal(a: string, b: string)
    ensures Less(a, b) || Less(b, a) || a == b
    ensures !(Less(a, b) && Less(b, a)) && !Less(a, a)
  {
    if a != [] && b != [] {
      LessIsTotal(a[1..], b[1..]);
      if a[0] == b[0] && a[1..] == b[1..] {
        assert a == [a[0]] + a[1..] && b == [b[0]] + b[1..];
      }
    }
    if a != [] {
      LessIsTotal(a[1..], a[1..]);
    }
  }

  lemma {:induction false} LessIsTransitive(a: string, b: string, c: string)
    requires Less(a, b) && Less(b, c)
    ensures Less(a, c)
  {
    if a != [] && a[0] == b[0] && b[0] == c[0] {
      LessIsTransitive(a[1..], b[1..], c[1..]);
    }
  }

  // They agree before n, where a ends or has the smaller character.
  ghost predicate SmallerAt(a: string, b: string, n: nat) {
    n <= |a| && n < |b| && a[..n] == b[..n] && (n == |a| || a[n] < b[n])
  }

  lemma {:induction false} SmallerBehindFirst(a: string, b: string, n: nat)
    requires a != [] && b != [] && a[0] == b[0]
    ensures SmallerAt(a, b, n + 1) <==> SmallerAt(a[1..], b[1..], n)
  {
    if n < |a| && n < |b| {
      assert a[..n + 1] == [a[0]] + a[1..][..n] && b[..n + 1] == [b[0]] + b[1..][..n];
      assert a[1..][..n] == a[..n + 1][1..] && b[1..][..n] == b[..n + 1][1..];
    }
  }

  lemma {:induction false} SmallerIsLess(a: string, b: string, n: nat)
    requires SmallerAt(a, b, n)
    ensures Less(a, b)
  {
    if n > 0 {
      assert a[0] == a[..n][0] == b[..n][0] == b[0];
      SmallerBehindFirst(a, b, n - 1);
      SmallerIsLess(a[1..], b[1..], n - 1);
    }
  }

  lemma {:induction false} LessIsLexicographic(a: string, b: string)
    ensures Less(a, b) <==> exists n: nat :: SmallerAt(a, b, n)
  {
    if n: nat :| SmallerAt(a, b, n) {
      SmallerIsLess(a, b, n);
    }
    if Less(a, b) {
      if a == [] || a[0] < b[0] {
        assert SmallerAt(a, b, 0);
      } else {
        LessIsLexicographic(a[1..], b[1..]);
        var n: nat :| SmallerAt(a[1..], b[1..], n);
        SmallerBehindFirst(a, b, n);
      }
    }
  }

  type Score = (string, string) -> nat  // (key, peer id)

  // p wins over q for the key: a higher score, or the same score and a lower id.
  predicate Beats(score: Score, key: string, p: string, q: string) {
    score(key, p) > score(key, q) || (score(key, p) == score(key, q) && Less(p, q))
  }

  lemma {:induction false} BeatsIsTotalOrder(score: Score, key: string, p: string, q: string, r: string)
    ensures p == q || Beats(score, key, p, q) || Beats(score, key, q, p)
    ensures !(Beats(score, key, p, q) && Beats(score, key, q, p)) && !Beats(score, key, p, p)
    ensures Beats(score, key, p, q) && Beats(score, key, q, r) ==> Beats(score, key, p, r)
  {
    LessIsTotal(p, q);
    LessIsTotal(p, p);
    if Less(p, q) && Less(q, r) {
      LessIsTransitive(p, q, r);
    }
  }

  ghost predicate Owns(score: Score, key: string, ids: set<string>, p: string) {
    p in ids && forall q :: q in ids && q != p ==> Beats(score, key, p, q)
  }

  lemma {:induction false} OwnerIsUnique(score: Score, key: string, ids: set<string>, p: string, q: string)
    requires Owns(score, key, ids, p) && Owns(score, key, ids, q)
    ensures p == q
  {
    BeatsIsTotalOrder(score, key, p, q, p);
  }

  // The peer a key is bound to among the candidates, taken one at a time.
  function Affine(score: Score, key: string, ids: seq<string>): string
    requires ids != []
  {
    var last := ids[|ids| - 1];
    if |ids| == 1 then last
    else
      var best := Affine(score, key, ids[..|ids| - 1]);
      if Beats(score, key, last, best) then last else best
  }

  ghost function Ids(ids: seq<string>): set<string> {
    set i | 0 <= i < |ids| :: ids[i]
  }

  lemma {:induction false} AffineOwns(score: Score, key: string, ids: seq<string>)
    requires ids != []
    ensures Owns(score, key, Ids(ids), Affine(score, key, ids))
  {
    var last := ids[|ids| - 1];
    if |ids| == 1 {
      assert Ids(ids) == {last};
    } else {
      var init := ids[..|ids| - 1];
      var best := Affine(score, key, init);
      AffineOwns(score, key, init);
      assert Ids(ids) == Ids(init) + {last};
      forall q | q in Ids(ids) && q != Affine(score, key, ids)
        ensures Beats(score, key, Affine(score, key, ids), q)
      {
        BeatsIsTotalOrder(score, key, last, best, q);
      }
    }
  }

  // The owner is the one peer with the highest score, the lowest id among several.
  lemma {:induction false} AffineIff(score: Score, key: string, ids: seq<string>, p: string)
    requires ids != []
    ensures p == Affine(score, key, ids)
      <==> p in ids && forall q :: q in ids ==>
             || score(key, q) < score(key, p)
             || (score(key, q) == score(key, p) && (q == p || exists n: nat :: SmallerAt(p, q, n)))
  {
    AffineOwns(score, key, ids);
    var owner := Affine(score, key, ids);
    forall q | q in ids
      ensures Beats(score, key, owner, q) || q == owner
      ensures Less(owner, q) <==> exists n: nat :: SmallerAt(owner, q, n)
      ensures Less(p, q) <==> exists n: nat :: SmallerAt(p, q, n)
    {
      assert q in Ids(ids);
      LessIsLexicographic(owner, q);
      LessIsLexicographic(p, q);
    }
    if p != owner {
      LessIsTotal(owner, p);
    }
  }

  // Two pools that list the same peers in different orders bind a key to the same one.
  lemma {:induction false} OrderDoesNotMatter(score: Score, key: string, ids: seq<string>, ids': seq<string>)
    requires ids != [] && ids' != [] && Ids(ids) == Ids(ids')
    ensures Affine(score, key, ids) == Affine(score, key, ids')
  {
    AffineOwns(score, key, ids);
    AffineOwns(score, key, ids');
    OwnerIsUnique(score, key, Ids(ids), Affine(score, key, ids), Affine(score, key, ids'));
  }

  // Losing a peer remaps exactly the keys it owned.
  lemma {:induction false} RemovalRemapsOnlyItsKeys(score: Score, key: string, ids: seq<string>,
      rest: seq<string>, gone: string)
    requires ids != [] && rest != [] && gone in Ids(ids) && Ids(rest) == Ids(ids) - {gone}
    ensures Affine(score, key, rest) != Affine(score, key, ids) <==> Affine(score, key, ids) == gone
  {
    AffineOwns(score, key, ids);
    AffineOwns(score, key, rest);
    if Affine(score, key, ids) != gone {
      OwnerIsUnique(score, key, Ids(rest), Affine(score, key, ids), Affine(score, key, rest));
    }
  }

  // Adding a peer moves keys to the newcomer and nowhere else.
  lemma {:induction false} AdditionMovesOnlyToNewcomer(score: Score, key: string, ids: seq<string>,
      more: seq<string>, newcomer: string)
    requires ids != [] && more != [] && Ids(more) == Ids(ids) + {newcomer}
    ensures Affine(score, key, more) == Affine(score, key, ids) || Affine(score, key, more) == newcomer
  {
    AffineOwns(score, key, ids);
    AffineOwns(score, key, more);
    if Affine(score, key, more) != newcomer {
      OwnerIsUnique(score, key, Ids(ids), Affine(score, key, ids), Affine(score, key, more));
    }
  }

  function IdsOf(candidates: seq<Member>): (ids: seq<string>)
    ensures |ids| == |candidates| && forall i :: 0 <= i < |ids| ==> ids[i] == candidates[i].id
  {
    if candidates == [] then [] else IdsOf(candidates[..|candidates| - 1]) + [candidates[|candidates| - 1].id]
  }

  method AffinePeer(score: Score, key: string, candidates: seq<Member>) returns (best: Member?)
    ensures best == null <==> key == "" || candidates == []
    ensures best != null ==> best in candidates && best.id == Affine(score, key, IdsOf(candidates))
  {
    if key == "" || candidates == [] {
      return null;
    }
    best := candidates[0];
    var bestScore := score(key, best.id);
    assert IdsOf(candidates[..1]) == [best.id];
    for i := 1 to |candidates|
      invariant best != null && best in candidates && bestScore == score(key, best.id)
      invariant best.id == Affine(score, key, IdsOf(candidates[..i]))
    {
      var pp := candidates[i];
      assert IdsOf(candidates[..i + 1])[..i] == IdsOf(candidates[..i]);
      var s := score(key, pp.id);
      if s > bestScore || (s == bestScore && Less(pp.id, best.id)) {
        best, bestScore := pp, s;
      }
    }
    assert candidates[..|candidates|] == candidates;
  }
}
