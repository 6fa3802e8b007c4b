/** The worklist of applyImplicationsForTagAndValue (src/tmsu/storage/file.go),
    as a specification: the list of implications the loop has visited once it
    stops, and what is true of it. */
module Worklist {
  import opened Entities

  /** The implications found for one worklist entry: those whose implied side
      is the entry's implying tag and value, matched by name. */
  function Further(impls: seq<Implication>, imp: Implication): seq<Implication>
  {
    ThatImply(impls, imp.implyingTag.name, imp.implyingValue.name)
  }

  /** Implying id pairs of `impls` that no queued entry carries yet. */
  function Unseen(impls: seq<Implication>, list: seq<Implication>): set<(TagId, ValueId)>
  {
    IdPairs(impls) - IdPairs(list)
  }

  lemma IdPairsAppend(list: seq<Implication>, f: Implication)
    ensures IdPairs(list + [f]) == IdPairs(list) + {ImplyingIds(f)}
  {
    assert forall imp :: imp in list + [f] <==> imp in list || imp == f;
  }

  lemma IdPairsCons(f: Implication, rest: seq<Implication>)
    ensures IdPairs([f] + rest) == {ImplyingIds(f)} + IdPairs(rest)
  {
    assert forall imp :: imp in [f] + rest <==> imp == f || imp in rest;
  }

  /** One pass of the inner loop: f is queued unless an entry with the same
      implying (tag id, value id) pair is already queued. */
  function AddIfNew(list: seq<Implication>, f: Implication): (r: seq<Implication>)
    ensures IdPairs(r) == IdPairs(list) + {ImplyingIds(f)}
    ensures r == list || (r == list + [f] && ImplyingIds(f) !in IdPairs(list))
  {
    AnySameImplyingPair(list, f);
    IdPairsAppend(list, f);
    if Any(list, imp => ImplyingIds(imp) == ImplyingIds(f)) then list else list + [f]
  }

  lemma InIdPairs(s: seq<Implication>, j: nat)
    requires j < |s|
    ensures ImplyingIds(s[j]) in IdPairs(s)
  {
    assert s[j] in s;
  }

  /** Entries from position m on are implications of `impls`. */
  ghost predicate DrawnFrom(impls: seq<Implication>, r: seq<Implication>, m: nat)
  {
    forall k | m <= k < |r| :: r[k] in impls
  }

  /** Entries from position m on each carry an implying pair that no earlier
      entry carries. */
  ghost predicate FreshFrom(r: seq<Implication>, m: nat)
  {
    forall j, k | 0 <= j < k < |r| && m <= k :: ImplyingIds(r[j]) != ImplyingIds(r[k])
  }

  /** The whole inner loop over `further`: each implication of `further`, in
      order, is queued unless its implying pair already is. */
  function Absorb(list: seq<Implication>, further: seq<Implication>): (r: seq<Implication>)
    ensures list <= r
    decreases |further|
  {
    if further == [] then list
    else Absorb(AddIfNew(list, further[0]), further[1..])
  }

  /** After the inner loop every implying pair of `further` is queued, and
      no other pair is added. */
  lemma {:induction false} AbsorbPairs(list: seq<Implication>, further: seq<Implication>)
    ensures IdPairs(Absorb(list, further)) == IdPairs(list) + IdPairs(further)
    decreases |further|
  {
    if further != [] {
      var f, rest := further[0], further[1..];
      AbsorbPairs(AddIfNew(list, f), rest);
      assert further == [f] + rest;
      IdPairsCons(f, rest);
    }
  }

  /** In addition, each appended entry comes from `further` and carries a
      pair no earlier entry has. */
  lemma {:induction false} AbsorbFacts(list: seq<Implication>, further: seq<Implication>)
    ensures IdPairs(Absorb(list, further)) == IdPairs(list) + IdPairs(further)
    ensures DrawnFrom(further, Absorb(list, further), |list|)
    ensures FreshFrom(Absorb(list, further), |list|)
    decreases |further|
  {
    AbsorbPairs(list, further);
    if further != [] {
      var f, rest := further[0], further[1..];
      var next := AddIfNew(list, f);
      var r := Absorb(next, rest);
      AbsorbFacts(next, rest);
      assert further == [f] + rest;
      AbsorbStepFacts(list, f, rest, next, r);
    }
  }

  /** The facts of one inner iteration, appended in front of the rest. */
  lemma AbsorbStepFacts(list: seq<Implication>, f: Implication, rest: seq<Implication>,
                        next: seq<Implication>, r: seq<Implication>)
    requires next == AddIfNew(list, f) && next <= r
    requires DrawnFrom(rest, r, |next|) && FreshFrom(r, |next|)
    ensures DrawnFrom([f] + rest, r, |list|)
    ensures FreshFrom(r, |list|)
  {
    forall k | |list| <= k < |r| ensures r[k] in [f] + rest {
      if k < |next| {
        assert r[k] == next[k] == f;
      } else {
        assert r[k] in rest;
      }
    }
    forall j, k | 0 <= j < k < |r| && |list| <= k ensures ImplyingIds(r[j]) != ImplyingIds(r[k]) {
      if k < |next| {
        assert r[j] == list[j] && r[k] == f;
        InIdPairs(list, j);
      }
    }
  }

  lemma SubsetCard<T>(a: set<T>, b: set<T>)
    requires a <= b
    ensures |a| <= |b|
  {
    if a != {} {
      var x :| x in a;
      SubsetCard(a - {x}, b - {x});
    }
  }

  lemma NotInIdPairs(s: seq<Implication>, p: (TagId, ValueId))
    requires forall j | 0 <= j < |s| :: ImplyingIds(s[j]) != p
    ensures p !in IdPairs(s)
  {
    forall imp | imp in s ensures ImplyingIds(imp) != p {
      var j :| 0 <= j < |s| && s[j] == imp;
    }
  }

  /** The queue never holds more unseen pairs after absorbing implications
      drawn from `impls`, and strictly fewer when it grew. */
  lemma AbsorbProgress(impls: seq<Implication>, list: seq<Implication>, further: seq<Implication>)
    requires forall imp :: imp in further ==> imp in impls
    ensures |Unseen(impls, Absorb(list, further))| <= |Unseen(impls, list)|
    ensures |Absorb(list, further)| > |list| ==>
              |Unseen(impls, Absorb(list, further))| < |Unseen(impls, list)|
  {
    var r := Absorb(list, further);
    AbsorbPairs(list, further);
    SubsetCard(Unseen(impls, r), Unseen(impls, list));
    if |r| > |list| {
      FreshEntry(impls, list, further);
      var p := ImplyingIds(r[|list|]);
      UnseenDrops(impls, list, r, p);
      SubsetCard(Unseen(impls, r), Unseen(impls, list) - {p});
    }
  }

  /** The first entry an inner loop appends carries a pair of `impls` that
      was not queued before. */
  lemma FreshEntry(impls: seq<Implication>, list: seq<Implication>, further: seq<Implication>)
    requires forall imp :: imp in further ==> imp in impls
    requires |Absorb(list, further)| > |list|
    ensures ImplyingIds(Absorb(list, further)[|list|]) in IdPairs(impls) - IdPairs(list)
    ensures ImplyingIds(Absorb(list, further)[|list|]) in IdPairs(Absorb(list, further))
  {
    var r := Absorb(list, further);
    AbsorbFacts(list, further);
    var p := ImplyingIds(r[|list|]);
    assert r[|list|] in impls;
    InIdPairs(impls, IndexOf(impls, r[|list|]));
    forall j | 0 <= j < |list| ensures ImplyingIds(list[j]) != p {
      assert r[j] == list[j];
    }
    NotInIdPairs(list, p);
    InIdPairs(r, |list|);
  }

  function IndexOf(s: seq<Implication>, x: Implication): (k: nat)
    requires x in s
    ensures k < |s| && s[k] == x
  {
    if s[0] == x then 0 else 1 + IndexOf(s[1..], x)
  }

  lemma UnseenDrops(impls: seq<Implication>, list: seq<Implication>, r: seq<Implication>, p: (TagId, ValueId))
    requires IdPairs(list) <= IdPairs(r) && p in IdPairs(r)
    ensures Unseen(impls, r) <= Unseen(impls, list) - {p}
  {
  }

  /** The outer loop, from position i of the queue on: visit entry i, absorb
      the implications of its implying side, move to i + 1, until i reaches
      the end of the (growing) queue. Terminates because each growth of the
      queue removes an implying pair of `impls` from the unseen ones. */
  function Close(impls: seq<Implication>, list: seq<Implication>, i: nat): (r: seq<Implication>)
    requires i <= |list|
    ensures list <= r
    decreases |Unseen(impls, list)|, |list| - i
  {
    if i == |list| then list
    else
      var further := Further(impls, list[i]);
      AbsorbProgress(impls, list, further);
      Close(impls, Absorb(list, further), i + 1)
  }

  /** One visit of the outer loop: unfolding Close at a position inside the queue. */
  lemma CloseStep(impls: seq<Implication>, list: seq<Implication>, i: nat)
    requires i < |list|
    ensures Close(impls, list, i) == Close(impls, Absorb(list, Further(impls, list[i])), i + 1)
  {
  }

  lemma AbsorbAppends(impls: seq<Implication>, list: seq<Implication>, i: nat)
    requires i < |list|
    ensures DrawnFrom(impls, Absorb(list, Further(impls, list[i])), |list|)
    ensures FreshFrom(Absorb(list, Further(impls, list[i])), |list|)
  {
    AbsorbFacts(list, Further(impls, list[i]));
  }

  lemma AppendsCompose(impls: seq<Implication>, list: seq<Implication>, next: seq<Implication>, r: seq<Implication>)
    requires list <= next <= r
    requires DrawnFrom(impls, next, |list|) && FreshFrom(next, |list|)
    requires DrawnFrom(impls, r, |next|) && FreshFrom(r, |next|)
    ensures DrawnFrom(impls, r, |list|) && FreshFrom(r, |list|)
  {
    forall k | |list| <= k < |r| ensures r[k] in impls {
      if k < |next| {
        assert r[k] == next[k];
      }
    }
    forall j, k | 0 <= j < k < |r| && |list| <= k ensures ImplyingIds(r[j]) != ImplyingIds(r[k]) {
      if k < |next| {
        assert r[k] == next[k] && r[j] == next[j];
      }
    }
  }

  /** What the outer loop appends comes from `impls`, and each appended entry
      carries an implying pair that no earlier entry carries. */
  lemma {:induction false} CloseAppends(impls: seq<Implication>, list: seq<Implication>, i: nat)
    requires i <= |list|
    ensures DrawnFrom(impls, Close(impls, list, i), |list|)
    ensures FreshFrom(Close(impls, list, i), |list|)
    decreases |Unseen(impls, list)|, |list| - i
  {
    if i < |list| {
      var further := Further(impls, list[i]);
      var next := Absorb(list, further);
      AbsorbProgress(impls, list, further);
      AbsorbAppends(impls, list, i);
      CloseAppends(impls, next, i + 1);
      CloseStep(impls, list, i);
      AppendsCompose(impls, list, next, Close(impls, next, i + 1));
    }
  }

  /** The final queue for a leaf tagName[=valueName]: seeded with the
      implications whose implied side is that leaf. */
  function Closure(impls: seq<Implication>, tagName: string, valueName: string): (r: seq<Implication>)
    ensures ThatImply(impls, tagName, valueName) <= r
  {
    Close(impls, ThatImply(impls, tagName, valueName), 0)
  }

  // ---------------------------------------------------------------------
  // Completeness: the final queue is closed under "further implications".

  /** Every implication that implies the implying side of entry k has its
      implying pair queued. */
  ghost predicate Expanded(impls: seq<Implication>, list: seq<Implication>, k: nat)
    requires k < |list|
  {
    IdPairs(Further(impls, list[k])) <= IdPairs(list)
  }

  /** Entries before position i have all been expanded. */
  ghost predicate ExpandedBefore(impls: seq<Implication>, list: seq<Implication>, i: nat)
    requires i <= |list|
  {
    forall k | 0 <= k < i :: Expanded(impls, list, k)
  }

  lemma CompleteStep(impls: seq<Implication>, list: seq<Implication>, i: nat)
    requires i < |list|
    requires ExpandedBefore(impls, list, i)
    ensures ExpandedBefore(impls, Absorb(list, Further(impls, list[i])), i + 1)
  {
    var further := Further(impls, list[i]);
    var next := Absorb(list, further);
    AbsorbPairs(list, further);
    forall k | 0 <= k < i + 1
      ensures Expanded(impls, next, k)
    {
      assert next[k] == list[k];
      if k < i {
        assert Expanded(impls, list, k);
      }
    }
  }

  lemma {:induction false} CloseComplete(impls: seq<Implication>, list: seq<Implication>, i: nat)
    requires i <= |list|
    requires ExpandedBefore(impls, list, i)
    ensures ExpandedBefore(impls, Close(impls, list, i), |Close(impls, list, i)|)
    decreases |Unseen(impls, list)|, |list| - i
  {
    if i < |list| {
      var further := Further(impls, list[i]);
      var next := Absorb(list, further);
      AbsorbProgress(impls, list, further);
      CompleteStep(impls, list, i);
      CloseComplete(impls, next, i + 1);
      CloseStep(impls, list, i);
    }
  }

  /** The final queue is closed: for each entry, every implication whose
      implied side is that entry's implying tag and value has its implying
      pair in the queue. */
  lemma ClosureComplete(impls: seq<Implication>, tagName: string, valueName: string, k: nat, f: Implication)
    requires k < |Closure(impls, tagName, valueName)|
    requires f in Further(impls, Closure(impls, tagName, valueName)[k])
    ensures ImplyingIds(f) in IdPairs(Closure(impls, tagName, valueName))
  {
    var r := Closure(impls, tagName, valueName);
    CloseComplete(impls, ThatImply(impls, tagName, valueName), 0);
    assert Expanded(impls, r, k);
    assert ImplyingIds(f) in IdPairs(Further(impls, r[k]));
  }

  // ---------------------------------------------------------------------
  // Soundness: every queued entry is reached by a chain of implications.

  /** Entry k implies the target leaf directly, or implies the implying side
      of an earlier entry. */
  ghost predicate Chained(list: seq<Implication>, target: (string, string), k: nat)
    requires k < |list|
  {
    ImpliedNames(list[k]) == target ||
    exists j :: 0 <= j < k && ImpliedNames(list[k]) == ImplyingNames(list[j])
  }

  ghost predicate AllChained(list: seq<Implication>, target: (string, string))
  {
    forall k | 0 <= k < |list| :: Chained(list, target, k)
  }

  lemma ChainedStep(impls: seq<Implication>, list: seq<Implication>, i: nat, target: (string, string))
    requires i < |list|
    requires AllChained(list, target)
    ensures AllChained(Absorb(list, Further(impls, list[i])), target)
  {
    var further := Further(impls, list[i]);
    var next := Absorb(list, further);
    AbsorbFacts(list, further);
    forall k | 0 <= k < |next|
      ensures Chained(next, target, k)
    {
      if k < |list| {
        assert next[k] == list[k];
        if ImpliedNames(list[k]) != target {
          assert Chained(list, target, k);
          var j :| 0 <= j < k && ImpliedNames(list[k]) == ImplyingNames(list[j]);
          assert next[j] == list[j];
        }
      } else {
        assert next[k] in further;
        assert ImpliedNames(next[k]) == ImplyingNames(next[i]);
      }
    }
  }

  lemma {:induction false} CloseChained(impls: seq<Implication>, list: seq<Implication>, i: nat, target: (string, string))
    requires i <= |list|
    requires AllChained(list, target)
    ensures AllChained(Close(impls, list, i), target)
    decreases |Unseen(impls, list)|, |list| - i
  {
    if i < |list| {
      var further := Further(impls, list[i]);
      var next := Absorb(list, further);
      AbsorbProgress(impls, list, further);
      ChainedStep(impls, list, i, target);
      CloseChained(impls, next, i + 1, target);
      CloseStep(impls, list, i);
    }
  }

  /** Every entry of the final queue is an implication of `impls` that implies
      the leaf itself or the implying side of an entry queued before it. */
  lemma ClosureSound(impls: seq<Implication>, tagName: string, valueName: string)
    ensures DrawnFrom(impls, Closure(impls, tagName, valueName), 0)
    ensures AllChained(Closure(impls, tagName, valueName), (tagName, valueName))
  {
    var seed := ThatImply(impls, tagName, valueName);
    var r := Closure(impls, tagName, valueName);
    assert forall k | 0 <= k < |seed| :: seed[k] in seed;
    CloseChained(impls, seed, 0, (tagName, valueName));
    CloseAppends(impls, seed, 0);
    forall k | 0 <= k < |r| ensures r[k] in impls {
      if k < |seed| {
        assert r[k] == seed[k] && seed[k] in seed;
      }
    }
  }

  // ---------------------------------------------------------------------
  // Deduplication and termination bound.

  lemma {:induction false} FreshCount(s: seq<Implication>, m: nat)
    requires m <= |s| && FreshFrom(s, m)
    ensures |IdPairs(s)| == |IdPairs(s[..m])| + (|s| - m)
    decreases |s|
  {
    if |s| > m {
      var init := s[..|s| - 1];
      var last := s[|s| - 1];
      assert s == init + [last];
      assert init[..m] == s[..m];
      assert FreshFrom(init, m);
      FreshCount(init, m);
      IdPairsAppend(init, last);
      forall j | 0 <= j < |init| ensures ImplyingIds(init[j]) != ImplyingIds(last) {
        assert init[j] == s[j];
      }
      NotInIdPairs(init, ImplyingIds(last));
    } else {
      assert s[..m] == s;
    }
  }

  /** Each implying pair not already in the seed is queued at most once, so the
      queue grows by at most the number of such pairs: this is what bounds the
      loop on cyclic implication graphs. */
  lemma ClosureBound(impls: seq<Implication>, tagName: string, valueName: string)
    ensures |Closure(impls, tagName, valueName)| <=
              |ThatImply(impls, tagName, valueName)| +
              |IdPairs(impls) - IdPairs(ThatImply(impls, tagName, valueName))|
  {
    var seed := ThatImply(impls, tagName, valueName);
    var r := Closure(impls, tagName, valueName);
    CloseAppends(impls, seed, 0);
    assert r[..|seed|] == seed;
    FreshCount(r, |seed|);
    forall p | p in IdPairs(r) ensures p in IdPairs(seed) + (IdPairs(impls) - IdPairs(seed)) {
      var imp :| imp in r && ImplyingIds(imp) == p;
      var k :| 0 <= k < |r| && r[k] == imp;
      if k < |seed| {
        InIdPairs(seed, k);
      } else {
        assert imp in impls;
      }
    }
    SubsetCard(IdPairs(r), IdPairs(seed) + (IdPairs(impls) - IdPairs(seed)));
    SubsetCard(IdPairs(seed), IdPairs(seed));
  }

  /** No two entries share an implying pair. */
  ghost predicate DistinctPairs(s: seq<Implication>)
  {
    forall j, k | 0 <= j < k < |s| :: ImplyingIds(s[j]) != ImplyingIds(s[k])
  }

  /** For a seed without repeated implying pairs, each implying pair occurs at
      most once in the final queue. */
  lemma ClosureDistinct(impls: seq<Implication>, tagName: string, valueName: string)
    requires DistinctPairs(ThatImply(impls, tagName, valueName))
    ensures DistinctPairs(Closure(impls, tagName, valueName))
  {
    var seed := ThatImply(impls, tagName, valueName);
    var r := Closure(impls, tagName, valueName);
    CloseAppends(impls, seed, 0);
    forall j, k | 0 <= j < k < |r| ensures ImplyingIds(r[j]) != ImplyingIds(r[k]) {
      if k < |seed| {
        assert r[j] == seed[j] && r[k] == seed[k];
      }
    }
  }
}
