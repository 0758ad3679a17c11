/** The pure ranker that must agree with the picker (proxy/scheduler.go). */
module PeerRanker {
  import opened PeerAffinity
  import opened PickSpec
  import opened PeerPicker

  datatype Node = Node(name: string, gpuIndex: int)

  // Each field is higher-is-better.
  datatype RankKey = RankKey(warm: int, freeMB: int, load: int, local: int)

  datatype Fit = Fit(fits: bool, freeVramMB: int, score: RankKey)

  datatype Candidate = Candidate(node: Node, fit: Fit)

  const VACANT_FREE_MB := 16000
  const OCCUPIED_FREE_MB := 4000
  const DEAD_FREE_MB := 0

  // The loaded-state biases of peerModelBias.
  const WARM := 0
  const VACANT := 1
  const OCCUPIED := 3
  const UNREACHABLE := 6

  predicate IsBias(b: int) {
    b == WARM || b == VACANT || b == OCCUPIED || b == UNREACHABLE
  }

  function FitOf(bias: int, inFlight: int): Fit {
    var freeMB := if bias == WARM || bias == VACANT then VACANT_FREE_MB
                  else if bias == OCCUPIED then OCCUPIED_FREE_MB
                  else DEAD_FREE_MB;
    Fit(true, freeMB, RankKey(if bias == WARM then 1 else 0, freeMB, -inFlight, 0))
  }

  // > 0 when a ranks ahead of b.
  function Cmp(a: RankKey, b: RankKey): int {
    if a.warm != b.warm then a.warm - b.warm
    else if a.freeMB != b.freeMB then a.freeMB - b.freeMB
    else if a.load != b.load then a.load - b.load
    else a.local - b.local
  }

  lemma {:induction false} CmpIsTotalOrder(a: RankKey, b: RankKey, c: RankKey)
    ensures Cmp(a, b) == -Cmp(b, a)
    ensures Cmp(a, b) == 0 <==> a == b
    ensures Cmp(a, b) >= 0 && Cmp(b, c) >= 0 ==> Cmp(a, c) >= 0
  {
  }

  function Parts(k: RankKey): seq<int> {
    [k.warm, k.freeMB, k.load, k.local]
  }

  // a's i-th part is higher and those before are the same.
  predicate AheadAt(a: RankKey, b: RankKey, i: nat) {
    i < 4 && Parts(a)[..i] == Parts(b)[..i] && Parts(a)[i] > Parts(b)[i]
  }

  // The first part that differs decides.
  lemma {:induction false} CmpIsLexicographic(a: RankKey, b: RankKey)
    ensures Cmp(a, b) > 0 <==> exists i: nat :: AheadAt(a, b, i)
  {
    forall i: nat | AheadAt(a, b, i)
      ensures Cmp(a, b) > 0
    {
      assert forall j :: 0 <= j < i ==> Parts(a)[..i][j] == Parts(b)[..i][j];
      assert i > 0 ==> Parts(a)[..i][0] == a.warm && Parts(b)[..i][0] == b.warm;
      assert i > 1 ==> Parts(a)[..i][1] == a.freeMB && Parts(b)[..i][1] == b.freeMB;
      assert i > 2 ==> Parts(a)[..i][2] == a.load && Parts(b)[..i][2] == b.load;
    }
    if Cmp(a, b) > 0 {
      var i := if a.warm != b.warm then 0 else if a.freeMB != b.freeMB then 1 else if a.load != b.load then 2 else 3;
      assert AheadAt(a, b, i);
    }
  }

  // What a fit tells of a peer: everyone fits, and the free memory stands for the loaded state.
  predicate Reports(f: Fit, bias: int, inFlight: int) {
    && f.fits && f.freeVramMB == f.score.freeMB && f.score.load == -inFlight && f.score.local == 0
    && (bias <= VACANT ==> f.freeVramMB == 16000)
    && (bias == OCCUPIED ==> f.freeVramMB == 4000)
    && (bias == UNREACHABLE ==> f.freeVramMB == 0)
    && f.score.warm == (if bias == 0 then 1 else 0)
  }

  // Among loaded states the key puts the better state first, and the less loaded peer within a state.
  lemma {:induction false} KeyOrder(bias: int, load: int, bias': int, load': int)
    requires IsBias(bias) && IsBias(bias')
    ensures Cmp(FitOf(bias, load).score, FitOf(bias', load').score) > 0
      <==> bias < bias' || (bias == bias' && load < load')
  {
  }

  // The first of the first n candidates that the key prefers to all others.
  function Preferred(loads: seq<int>, biases: seq<int>, n: nat): (b: nat)
    requires 0 < n <= |loads| == |biases|
    ensures b < n
  {
    if n == 1 then 0
    else
      var b := Preferred(loads, biases, n - 1);
      if Cmp(FitOf(biases[n - 1], loads[n - 1]).score, FitOf(biases[b], loads[b]).score) > 0 then n - 1 else b
  }

  // It has the best state of all, the least load in that state, and is the first of those.
  lemma {:induction false} PreferredIsFirst(loads: seq<int>, biases: seq<int>, n: nat)
    requires 0 < n <= |loads| == |biases| && forall i :: 0 <= i < n ==> IsBias(biases[i])
    ensures var b := Preferred(loads, biases, n);
      && (forall i :: 0 <= i < n ==> biases[b] < biases[i] || (biases[b] == biases[i] && loads[b] <= loads[i]))
      && (forall i :: 0 <= i < b ==> biases[b] < biases[i] || loads[b] < loads[i])
  {
    if n > 1 {
      PreferredIsFirst(loads, biases, n - 1);
      var b := Preferred(loads, biases, n - 1);
      KeyOrder(biases[n - 1], loads[n - 1], biases[b], loads[b]);
    }
  }

  // The candidate the key prefers is the picker's when the picker's has the best loaded state of all.
  lemma {:induction false} HeadsAgreeIffBestState(loads: seq<int>, biases: seq<int>)
    requires 0 < |loads| == |biases| && forall i :: 0 <= i < |biases| ==> IsBias(biases[i])
    ensures var best := Best(loads, biases, |loads|);
      Preferred(loads, biases, |loads|) == best <==> forall i :: 0 <= i < |biases| ==> biases[best] <= biases[i]
  {
    var p, best := Preferred(loads, biases, |loads|), Best(loads, biases, |loads|);
    PreferredIsFirst(loads, biases, |loads|);
    if biases[best] <= biases[p] {
      assert biases[best] == biases[p] && loads[p] <= loads[best];
      assert PickSpec.Rank(loads, biases, best) <= PickSpec.Rank(loads, biases, p);
    }
  }

  // Candidate i is in no worse a state than j, and comes before it by rank if j's state is worse, the
  // earlier of the two on a tie.
  predicate Outranks(loads: seq<int>, biases: seq<int>, i: nat, j: nat)
    requires i < |loads| == |biases| && j < |loads|
  {
    var r, s := PickSpec.Rank(loads, biases, i), PickSpec.Rank(loads, biases, j);
    biases[i] <= biases[j] && (biases[i] < biases[j] ==> r < s || (r == s && i < j))
  }

  ghost predicate OutranksAll(loads: seq<int>, biases: seq<int>, i: nat)
    requires i < |loads| == |biases|
  {
    forall j :: 0 <= j < |loads| ==> Outranks(loads, biases, i, j)
  }

  lemma {:induction false} BestStateOutranksAll(loads: seq<int>, biases: seq<int>)
    requires 0 < |loads| == |biases|
    requires forall i :: 0 <= i < |biases| ==> biases[Best(loads, biases, |loads|)] <= biases[i]
    ensures OutranksAll(loads, biases, Best(loads, biases, |loads|))
  {
    var best := Best(loads, biases, |loads|);
    forall j | 0 <= j < |loads|
      ensures Outranks(loads, biases, best, j)
    {
      assert PickSpec.Rank(loads, biases, best) <= PickSpec.Rank(loads, biases, j);
      if j < best {
        assert PickSpec.Rank(loads, biases, best) < PickSpec.Rank(loads, biases, j);
      }
    }
  }

  lemma {:induction false} OutrankingKeepsBestState(loads: seq<int>, biases: seq<int>, i: nat)
    requires i < |loads| == |biases| && OutranksAll(loads, biases, i)
    ensures forall j :: 0 <= j < |biases| ==> biases[Best(loads, biases, |loads|)] <= biases[j]
  {
    var best := Best(loads, biases, |loads|);
    forall j | 0 <= j < |biases|
      ensures biases[i] <= biases[j]
    {
      assert Outranks(loads, biases, i, j);
    }
    assert Outranks(loads, biases, i, best);
    assert PickSpec.Rank(loads, biases, best) <= PickSpec.Rank(loads, biases, i);
    assert i < best ==> PickSpec.Rank(loads, biases, best) < PickSpec.Rank(loads, biases, i);
  }

  // On any fleet the key's first choice is the picker's exactly when some peer in the best loaded state
  // comes before every peer in a worse one by rank: otherwise the weighted sum trades state for load,
  // which the key never does.
  lemma {:induction false} HeadsAgreeIff(loads: seq<int>, biases: seq<int>)
    requires 0 < |loads| == |biases| && forall i :: 0 <= i < |biases| ==> IsBias(biases[i])
    ensures Preferred(loads, biases, |loads|) == Best(loads, biases, |loads|)
      <==> exists i :: 0 <= i < |loads| && OutranksAll(loads, biases, i)
  {
    var best := Best(loads, biases, |loads|);
    HeadsAgreeIffBestState(loads, biases);
    if Preferred(loads, biases, |loads|) == best {
      BestStateOutranksAll(loads, biases);
    }
    if i :| 0 <= i < |loads| && OutranksAll(loads, biases, i) {
      OutrankingKeepsBestState(loads, biases, i);
    }
  }

  // Where they part: a warm peer with one request in flight beside an idle vacant one.
  lemma {:induction false} HeadsDisagree()
    ensures Preferred([1, 0], [WARM, VACANT], 2) == 0 && Best([1, 0], [WARM, VACANT], 2) == 1
  {
    assert PickSpec.Rank([1, 0], [WARM, VACANT], 0) == 2 && PickSpec.Rank([1, 0], [WARM, VACANT], 1) == 1;
  }

  // ---- stable order ----

  // Position i goes before position j: a smaller key, or the same key and an earlier position.
  predicate Before(keys: seq<int>, i: nat, j: nat)
    requires i < |keys| && j < |keys|
  {
    keys[i] < keys[j] || (keys[i] == keys[j] && i < j)
  }

  ghost predicate Ordered(keys: seq<int>, order: seq<nat>) {
    && (forall a :: 0 <= a < |order| ==> order[a] < |keys|)
    && forall a, b :: 0 <= a < b < |order| ==> Before(keys, order[a], order[b])
  }

  // What a stable sort of the first n positions by key produces.
  ghost predicate IsStableOrder(keys: seq<int>, n: nat, order: seq<nat>)
    requires n <= |keys|
  {
    |order| == n && (forall a :: 0 <= a < n ==> order[a] < n) && Ordered(keys, order)
  }

  // Inserts the newest position behind everything it does not precede.
  function Insert(keys: seq<int>, order: seq<nat>, x: nat): (r: seq<nat>)
    requires x < |keys| && forall a :: 0 <= a < |order| ==> order[a] < x
    ensures |r| == |order| + 1
    ensures forall a :: 0 <= a < |r| ==> r[a] == x || r[a] in order
  {
    if order == [] || keys[order[|order| - 1]] <= keys[x] then order + [x]
    else Insert(keys, order[..|order| - 1], x) + [order[|order| - 1]]
  }

  lemma {:induction false} OrderedAppend(keys: seq<int>, order: seq<nat>, y: nat)
    requires Ordered(keys, order) && y < |keys|
    requires forall a :: 0 <= a < |order| ==> Before(keys, order[a], y)
    ensures Ordered(keys, order + [y])
  {
  }

  lemma {:induction false} InsertKeepsOrder(keys: seq<int>, order: seq<nat>, x: nat)
    requires x < |keys| && forall a :: 0 <= a < |order| ==> order[a] < x
    requires Ordered(keys, order)
    ensures Ordered(keys, Insert(keys, order, x))
  {
    if order == [] {
    } else if keys[order[|order| - 1]] <= keys[x] {
      var last := order[|order| - 1];
      forall a | 0 <= a < |order|
        ensures Before(keys, order[a], x)
      {
        assert a < |order| - 1 ==> Before(keys, order[a], order[|order| - 1]);
      }
      OrderedAppend(keys, order, x);
    } else {
      var init, last := order[..|order| - 1], order[|order| - 1];
      InsertKeepsOrder(keys, init, x);
      var r := Insert(keys, init, x);
      forall a | 0 <= a < |r|
        ensures Before(keys, r[a], last)
      {
        if r[a] != x {
          var c :| 0 <= c < |init| && init[c] == r[a];
          assert Before(keys, order[c], order[|order| - 1]);
        }
      }
      OrderedAppend(keys, r, last);
    }
  }

  function StableOrder(keys: seq<int>, n: nat): (order: seq<nat>)
    requires n <= |keys|
    ensures |order| == n && forall a :: 0 <= a < n ==> order[a] < n
  {
    if n == 0 then [] else Insert(keys, StableOrder(keys, n - 1), n - 1)
  }

  lemma {:induction false} StableOrderIsStable(keys: seq<int>, n: nat)
    requires n <= |keys|
    ensures IsStableOrder(keys, n, StableOrder(keys, n))
  {
    if n > 0 {
      StableOrderIsStable(keys, n - 1);
      InsertKeepsOrder(keys, StableOrder(keys, n - 1), n - 1);
    }
  }

  // A stable order lists every position once.
  lemma {:induction false} StableOrderIsPermutation(keys: seq<int>, n: nat, i: nat)
    requires n <= |keys| && i < n
    ensures i in StableOrder(keys, n)
  {
    InsertHas(keys, StableOrder(keys, n - 1), n - 1, i);
    if i < n - 1 {
      StableOrderIsPermutation(keys, n - 1, i);
    }
  }

  lemma {:induction false} InsertHas(keys: seq<int>, order: seq<nat>, x: nat, i: nat)
    requires x < |keys| && forall a :: 0 <= a < |order| ==> order[a] < x
    ensures x in Insert(keys, order, x)
    ensures i in order ==> i in Insert(keys, order, x)
  {
    if order != [] && keys[order[|order| - 1]] > keys[x] {
      InsertHas(keys, order[..|order| - 1], x, i);
    }
  }

  // No position comes before itself, and no two come before each other.
  lemma {:induction false} BeforeIsAsymmetric(keys: seq<int>, i: nat, j: nat)
    requires i < |keys| && j < |keys| && Before(keys, i, j)
    ensures i != j && !Before(keys, j, i)
  {
  }

  // Two orders that agree before a, and hold each other's a-th entry at b and c, agree at a.
  lemma {:induction false} OrdersAgreeAt(keys: seq<int>, r: seq<nat>, s: seq<nat>, a: nat, b: nat, c: nat)
    requires Ordered(keys, r) && Ordered(keys, s) && a < |r| && a < |s| && b < |s| && c < |r|
    requires forall d :: 0 <= d < a ==> r[d] == s[d]
    requires s[b] == r[a] && r[c] == s[a]
    ensures r[a] == s[a]
  {
    if a < b && a < c {
      BeforeIsAsymmetric(keys, s[a], s[b]);
    }
  }

  // Any sort that is stable gives this order: there is only one.
  lemma {:induction false} StableOrderIsUnique(keys: seq<int>, n: nat, r: seq<nat>, s: seq<nat>, a: nat)
    requires n <= |keys| && IsStableOrder(keys, n, r) && IsStableOrder(keys, n, s) && a < n
    requires forall i :: 0 <= i < n ==> i in r
    requires forall i :: 0 <= i < n ==> i in s
    ensures r[a] == s[a]
  {
    forall d: nat | d < a
      ensures r[d] == s[d]
    {
      StableOrderIsUnique(keys, n, r, s, d);
    }
    assert r[a] in s && s[a] in r;
    var b :| 0 <= b < n && s[b] == r[a];
    var c :| 0 <= c < n && r[c] == s[a];
    OrdersAgreeAt(keys, r, s, a, b, c);
  }

  // ---- Rank ----

  function Keys(loads: seq<int>, biases: seq<int>, n: nat): (keys: seq<int>)
    requires n <= |loads| == |biases|
    ensures |keys| == n && forall i :: 0 <= i < n ==> keys[i] == PickSpec.Rank(loads, biases, i)
  {
    if n == 0 then [] else Keys(loads, biases, n - 1) + [PickSpec.Rank(loads, biases, n - 1)]
  }

  // The ranker's first choice is the peer the picker reserves for a request with no affinity, one
  // candidate or many.
  lemma {:induction false} HeadIsThePick(loads: seq<int>, biases: seq<int>, affinity: Affinity, bonus: int, cap: int)
    requires 0 < |loads| == |biases| && !affinity.Bound?
    ensures StableOrder(Keys(loads, biases, |loads|), |loads|)[0] == Decide(loads, biases, affinity, bonus, cap).peer
  {
    var n, keys := |loads|, Keys(loads, biases, |loads|);
    var order, best := StableOrder(keys, n), Best(loads, biases, n);
    StableOrderIsStable(keys, n);
    StableOrderIsPermutation(keys, n, best);
    var a :| 0 <= a < n && order[a] == best;
  }

  method Rank(candidates: seq<Member>, biases: seq<int>) returns (out: seq<Candidate>)
    requires |candidates| == |biases|
    ensures var order := StableOrder(Keys(Loads(candidates), biases, |candidates|), |candidates|);
      && |out| == |candidates|
      && forall a :: 0 <= a < |out| ==>
           out[a] == Candidate(Node(candidates[order[a]].id, 0), FitOf(biases[order[a]], candidates[order[a]].inFlight))
    ensures var order := StableOrder(Keys(Loads(candidates), biases, |candidates|), |candidates|);
      forall a :: 0 <= a < |out| && IsBias(biases[order[a]]) ==>
        Reports(out[a].fit, biases[order[a]], candidates[order[a]].inFlight)
  {
    out := [];
    if candidates == [] {
      return;
    }
    ghost var loads := Loads(candidates);
    var n := |candidates|;
    var keys: seq<int> := [];
    for i := 0 to n
      invariant keys == Keys(loads, biases, i)
    {
      keys := keys + [candidates[i].inFlight * 2 + biases[i]];
    }
    var order := StableOrder(keys, n);
    for a := 0 to n
      invariant |out| == a
      invariant forall b :: 0 <= b < a ==>
                  out[b]
                  == Candidate(Node(candidates[order[b]].id, 0), FitOf(biases[order[b]], candidates[order[b]].inFlight))
    {
      var p := order[a];
      out := out + [Candidate(Node(candidates[p].id, 0), FitOf(biases[p], candidates[p].inFlight))];
    }
  }
}
