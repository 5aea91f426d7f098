/** Assembly of an agent's context: layers in order of precedence, without duplicates, within a token budget. */
module ContextAssembly {
  import opened Text

  datatype LayerType = Retrieved | Research | Global | Project | User | Task

  datatype Layer = Layer(kind: LayerType, source: string, guardrail: bool, content: string, tokens: nat)

  datatype Action = Added | DroppedDuplicate | Truncated | Dropped

  datatype Entry = Entry(action: Action, kind: LayerType, source: string, before: nat, after: nat)

  const TOP: nat := 5

  function Rank(kind: LayerType): (r: nat)
    ensures r <= TOP
  {
    match kind
    case Retrieved => 0
    case Research => 1
    case Global => 2
    case Project => 3
    case User => 4
    case Task => 5
  }

  function DefaultCap(kind: LayerType): int {
    match kind
    case Retrieved => 0
    case Research => 1500
    case Global => 4000
    case Project => 4000
    case User => 4000
    case Task => 0
  }

  predicate IsGuardrail(l: Layer) { l.guardrail || l.kind.Task? }

  function EntryFor(action: Action, l: Layer, before: nat, after: nat): Entry {
    Entry(action, l.kind, l.source, before, after)
  }

  // ---------------------------------------------------------------------------------------------
  // Order
  // ---------------------------------------------------------------------------------------------

  function OfRank(ls: seq<Layer>, r: nat): (f: seq<Layer>)
    ensures forall l :: l in f ==> l in ls && Rank(l.kind) == r
  {
    if ls == [] then []
    else
      var rest, last := OfRank(ls[..|ls| - 1], r), ls[|ls| - 1];
      if Rank(last.kind) == r then rest + [last] else rest
  }

  /** The layers of rank `r` and below, highest first. */
  function OrderFrom(ls: seq<Layer>, r: nat): seq<Layer> {
    OfRank(ls, r) + if r == 0 then [] else OrderFrom(ls, r - 1)
  }

  /** The layers by precedence, highest first, and otherwise in their given order. */
  function Order(ls: seq<Layer>): seq<Layer> { OrderFrom(ls, TOP) }

  ghost predicate Sorted(ls: seq<Layer>) {
    forall i, j :: 0 <= i < j < |ls| ==> Rank(ls[i].kind) >= Rank(ls[j].kind)
  }

  lemma OfRankSnoc(ls: seq<Layer>, last: Layer, r: nat)
    ensures OfRank(ls + [last], r) == if Rank(last.kind) == r then OfRank(ls, r) + [last] else OfRank(ls, r)
  {
    assert (ls + [last])[..|ls|] == ls;
    hide Rank;
  }

  lemma {:induction false} OfRankConcat(a: seq<Layer>, b: seq<Layer>, r: nat)
    ensures OfRank(a + b, r) == OfRank(a, r) + OfRank(b, r)
  {
    if b == [] {
      assert a + b == a;
    } else {
      hide Rank;
      OfRankConcat(a, b[..|b| - 1], r);
      assert (a + b)[..|a + b| - 1] == a + b[..|b| - 1];
    }
  }

  lemma {:induction false} OfRankOfUniform(ls: seq<Layer>, s: nat, r: nat)
    requires forall l :: l in ls ==> Rank(l.kind) == s
    ensures OfRank(ls, r) == if r == s then ls else []
  {
    if ls != [] {
      hide *;
      var init, last := ls[..|ls| - 1], ls[|ls| - 1];
      assert ls == init + [last];
      OfRankOfUniform(init, s, r);
      OfRankSnoc(init, last, r);
    }
  }

  lemma OrderFromStep(ls: seq<Layer>, r: nat)
    ensures OrderFrom(ls, r) == if r > 0 then OfRank(ls, r) + OrderFrom(ls, r - 1) else OfRank(ls, r)
  {
    hide OfRank;
  }

  lemma OfRankBehind(ls: seq<Layer>, top: nat, rest: seq<Layer>, r: nat)
    ensures OfRank(OfRank(ls, top) + rest, r) == if r == top then OfRank(ls, top) + OfRank(rest, r) else OfRank(rest, r)
  {
    var first := OfRank(ls, top);
    OfRankOfUniform(first, top, r);
    hide *;
    OfRankConcat(first, rest, r);
  }

  lemma {:induction false} OrderFromRanks(ls: seq<Layer>, top: nat, r: nat)
    ensures OfRank(OrderFrom(ls, top), r) == if r <= top then OfRank(ls, r) else []
  {
    hide *;
    var rest := if top > 0 then OrderFrom(ls, top - 1) else [];
    OrderFromStep(ls, top);
    assert OrderFrom(ls, top) == OfRank(ls, top) + rest;
    OfRankBehind(ls, top, rest, r);
    if top > 0 {
      OrderFromRanks(ls, top - 1, r);
    } else {
      OfRankEmpty(r);
    }
  }

  lemma OfRankEmpty(r: nat)
    ensures OfRank([], r) == []
  {
  }

  lemma {:induction false} OrderFromMember(ls: seq<Layer>, top: nat, l: Layer)
    requires l in OrderFrom(ls, top)
    ensures Rank(l.kind) <= top
  {
    assert l in OfRank(ls, top) ==> Rank(l.kind) == top;
    hide *;
    OrderFromStep(ls, top);
    if l !in OfRank(ls, top) {
      OrderFromMember(ls, top - 1, l);
    }
  }

  lemma SortedConcat(a: seq<Layer>, b: seq<Layer>, r: nat)
    requires Sorted(a) && Sorted(b)
    requires (forall l :: l in a ==> Rank(l.kind) >= r) && (forall l :: l in b ==> Rank(l.kind) <= r)
    ensures Sorted(a + b)
  {
    hide Rank;
    var ab := a + b;
    forall i, j | 0 <= i < j < |ab| ensures Rank(ab[i].kind) >= Rank(ab[j].kind) {
      if i < |a| <= j {
        assert ab[i] in a && ab[j] in b;
      }
    }
  }

  lemma UniformSorted(ls: seq<Layer>, r: nat)
    requires forall l :: l in ls ==> Rank(l.kind) == r
    ensures Sorted(ls)
  {
    assert forall i :: 0 <= i < |ls| ==> ls[i] in ls;
    hide Rank;
  }

  lemma {:induction false} OrderFromSorted(ls: seq<Layer>, top: nat)
    ensures Sorted(OrderFrom(ls, top))
  {
    hide *;
    var first := OfRank(ls, top);
    assert forall l :: l in first ==> Rank(l.kind) == top;
    UniformSorted(first, top);
    OrderFromStep(ls, top);
    if top > 0 {
      OrderFromSorted(ls, top - 1);
      forall l | l in OrderFrom(ls, top - 1) ensures Rank(l.kind) <= top {
        OrderFromMember(ls, top - 1, l);
      }
      SortedConcat(first, OrderFrom(ls, top - 1), top);
    }
  }

  ghost predicate SameRanks(a: seq<Layer>, b: seq<Layer>) { forall r: nat :: OfRank(a, r) == OfRank(b, r) }

  /** Ordering is a stable sort: the result is sorted, and the layers of each rank are those of the input, in their
      order. */
  lemma OrderIsStableSort(ls: seq<Layer>)
    ensures Sorted(Order(ls)) && SameRanks(Order(ls), ls)
  {
    OrderFromSorted(ls, TOP);
    hide OrderFrom, Rank, Sorted;
    forall r: nat ensures OfRank(Order(ls), r) == OfRank(ls, r) {
      OrderFromRanks(ls, TOP, r);
      if r > TOP {
        NoneOfRank(ls, r);
      }
    }
  }

  lemma {:induction false} NoneOfRank(ls: seq<Layer>, r: nat)
    requires r > TOP
    ensures OfRank(ls, r) == []
  {
    if ls != [] {
      NoneOfRank(ls[..|ls| - 1], r);
    }
  }

  lemma SortedPrefix(ls: seq<Layer>, last: Layer)
    requires Sorted(ls + [last])
    ensures Sorted(ls)
  {
    hide Rank;
    var all := ls + [last];
    assert forall i :: 0 <= i < |ls| ==> all[i] == ls[i];
  }

  /** It is the only stable sort: sorted lists with the same layers of each rank are equal. */
  lemma {:induction false} StableSortIsUnique(a: seq<Layer>, b: seq<Layer>)
    requires Sorted(a) && Sorted(b) && SameRanks(a, b)
    ensures a == b
    decreases |a|
  {
    hide Rank, Sorted;
    if a == [] {
      EmptyRanks(a, b);
    } else if b == [] {
      EmptyRanks(b, a);
    } else {
      var a', x, b', y := a[..|a| - 1], a[|a| - 1], b[..|b| - 1], b[|b| - 1];
      assert a == a' + [x] && b == b' + [y];
      LastHasLowest(a, b);
      LastHasLowest(b, a);
      DropLast(a', x, b', y);
      SortedPrefix(a', x);
      SortedPrefix(b', y);
      hide SameRanks;
      StableSortIsUnique(a', b');
    }
  }

  lemma DropLast(a: seq<Layer>, x: Layer, b: seq<Layer>, y: Layer)
    requires SameRanks(a + [x], b + [y]) && Rank(x.kind) == Rank(y.kind)
    ensures x == y && SameRanks(a, b)
  {
    hide Rank, OfRank;
    var r0 := Rank(x.kind);
    OfRankSnoc(a, x, r0);
    OfRankSnoc(b, y, r0);
    assert OfRank(a + [x], r0) == OfRank(b + [y], r0);
    SnocInjective(OfRank(a, r0), x, OfRank(b, r0), y);
    forall r: nat ensures OfRank(a, r) == OfRank(b, r) {
      assert OfRank(a + [x], r) == OfRank(b + [y], r);
      OfRankSnoc(a, x, r);
      OfRankSnoc(b, y, r);
    }
  }

  lemma SnocInjective(a: seq<Layer>, x: Layer, b: seq<Layer>, y: Layer)
    requires a + [x] == b + [y]
    ensures a == b && x == y
  {
    assert |a| == |b| && (a + [x])[|a|] == (b + [y])[|b|];
    assert a == (a + [x])[..|a|] && b == (b + [y])[..|b|];
  }

  lemma EmptyRanks(a: seq<Layer>, b: seq<Layer>)
    requires a == [] && (SameRanks(a, b) || SameRanks(b, a))
    ensures b == []
  {
    if b != [] {
      var x := b[|b| - 1];
      assert OfRank(a, Rank(x.kind)) == OfRank(b, Rank(x.kind));
      assert false;
    }
  }

  lemma LastHasLowest(a: seq<Layer>, b: seq<Layer>)
    requires Sorted(a) && a != [] && b != [] && (SameRanks(a, b) || SameRanks(b, a))
    ensures Rank(a[|a| - 1].kind) <= Rank(b[|b| - 1].kind)
  {
    var y := b[|b| - 1];
    assert y in OfRank(b, Rank(y.kind));
    assert OfRank(a, Rank(y.kind)) == OfRank(b, Rank(y.kind));
    var i :| 0 <= i < |a| && a[i] == y;
  }

  /** Ordering an ordered list changes nothing. */
  lemma OrderOfSorted(ls: seq<Layer>)
    requires Sorted(ls)
    ensures Order(ls) == ls
  {
    OrderIsStableSort(ls);
    StableSortIsUnique(Order(ls), ls);
  }

  // ---------------------------------------------------------------------------------------------
  // Duplicates
  // ---------------------------------------------------------------------------------------------

  function LowerChar(c: char): char { if 'A' <= c <= 'Z' then ((c as int) + 32) as char else c }

  function Lower(s: string): (r: string)
    ensures |r| == |s| && forall i :: 0 <= i < |r| ==> r[i] == LowerChar(s[i])
  {
    if s == [] then [] else [LowerChar(s[0])] + Lower(s[1..])
  }

  /** What two layers have in common if they count as duplicates: their words, apart from case. */
  function Digest(l: Layer): string { Lower(Join(Split(l.content))) }

  predicate Seen(ls: seq<Layer>, d: string) {
    ls != [] && (Digest(ls[|ls| - 1]) == d || Seen(ls[..|ls| - 1], d))
  }

  /** The first of each group of duplicates. */
  function Dedupe(ls: seq<Layer>): (kept: seq<Layer>) {
    if ls == [] then []
    else
      var init, last := ls[..|ls| - 1], ls[|ls| - 1];
      if Seen(init, Digest(last)) then Dedupe(init) else Dedupe(init) + [last]
  }

  /** The audit entries for the duplicates. */
  function DuplicateEntries(ls: seq<Layer>): seq<Entry> {
    if ls == [] then []
    else
      var init, last := ls[..|ls| - 1], ls[|ls| - 1];
      if Seen(init, Digest(last)) then DuplicateEntries(init) + [EntryFor(DroppedDuplicate, last, last.tokens, 0)]
      else DuplicateEntries(init)
  }

  lemma {:induction false} SeenIff(ls: seq<Layer>, d: string)
    ensures Seen(ls, d) <==> exists i :: 0 <= i < |ls| && Digest(ls[i]) == d
  {
    hide Digest;
    if ls != [] {
      SeenIff(ls[..|ls| - 1], d);
    }
  }

  /** Every layer dropped by deduplication has its audit entry. */
  lemma {:induction false} DedupeCounts(ls: seq<Layer>)
    ensures |ls| == |Dedupe(ls)| + |DuplicateEntries(ls)|
    ensures forall e :: e in DuplicateEntries(ls) ==> e.action.DroppedDuplicate?
  {
    hide Digest;
    if ls != [] {
      DedupeCounts(ls[..|ls| - 1]);
    }
  }

  lemma DedupeSnoc(ls: seq<Layer>, last: Layer)
    ensures Dedupe(ls + [last]) == if Seen(ls, Digest(last)) then Dedupe(ls) else Dedupe(ls) + [last]
    ensures DuplicateEntries(ls + [last]) == if Seen(ls, Digest(last))
              then DuplicateEntries(ls) + [EntryFor(DroppedDuplicate, last, last.tokens, 0)] else DuplicateEntries(ls)
    ensures forall d :: Seen(ls + [last], d) <==> Digest(last) == d || Seen(ls, d)
  {
    hide Digest;
    assert (ls + [last])[..|ls|] == ls;
  }

  /** What is kept has the digests of all layers, each once, and is in the given order. */
  lemma {:induction false} DedupeKeeps(ls: seq<Layer>)
    ensures Sorted(ls) ==> Sorted(Dedupe(ls))
    ensures forall l :: l in Dedupe(ls) ==> l in ls
  {
    if ls != [] {
      hide *;
      var init, last := ls[..|ls| - 1], ls[|ls| - 1];
      assert ls == init + [last];
      DedupeKeeps(init);
      DedupeSnoc(init, last);
      if Sorted(ls) {
        SortedPrefix(init, last);
        SortedSubset(init, last, Dedupe(init));
      }
    }
  }

  /** Each digest stays. */
  lemma {:induction false} DedupeKeepsDigest(ls: seq<Layer>, d: string)
    ensures Seen(Dedupe(ls), d) <==> Seen(ls, d)
  {
    hide *;
    if ls == [] {
      NothingToDedupe();
    } else {
      var init, last := ls[..|ls| - 1], ls[|ls| - 1];
      assert ls == init + [last];
      DedupeKeepsDigest(init, d);
      DedupeSnoc(init, last);
      DedupeSnoc(Dedupe(init), last);
    }
  }

  lemma NothingToDedupe()
    ensures Dedupe([]) == []
  {
  }

  lemma SortedSubset(ls: seq<Layer>, last: Layer, kept: seq<Layer>)
    requires Sorted(ls + [last]) && Sorted(kept) && forall l :: l in kept ==> l in ls
    ensures Sorted(kept + [last])
  {
    hide Rank;
    var all := ls + [last];
    forall i | 0 <= i < |kept| ensures Rank(kept[i].kind) >= Rank(last.kind) {
      assert kept[i] in kept;
      var j :| 0 <= j < |ls| && ls[j] == kept[i];
      assert all[j] == ls[j] && all[|ls|] == last;
    }
  }

  ghost predicate DistinctDigests(ls: seq<Layer>) {
    forall i, j :: 0 <= i < j < |ls| ==> Digest(ls[i]) != Digest(ls[j])
  }

  lemma {:induction false} DedupeDistinct(ls: seq<Layer>)
    ensures DistinctDigests(Dedupe(ls))
  {
    hide Digest;
    if ls != [] {
      var init, last := ls[..|ls| - 1], ls[|ls| - 1];
      DedupeDistinct(init);
      DedupeKeepsDigest(init, Digest(last));
      SeenIff(Dedupe(init), Digest(last));
    }
  }

  // The first layer with a digest ----------------------------------------------------------------

  /** `x` is the first layer with its digest. */
  predicate IsFirst(ls: seq<Layer>, x: Layer) {
    ls != [] && (IsFirst(ls[..|ls| - 1], x) || (ls[|ls| - 1] == x && !Seen(ls[..|ls| - 1], Digest(x))))
  }

  lemma {:induction false} DedupeIsFirst(ls: seq<Layer>, x: Layer)
    ensures x in Dedupe(ls) <==> IsFirst(ls, x)
  {
    hide Digest, Seen;
    if ls != [] {
      DedupeIsFirst(ls[..|ls| - 1], x);
    }
  }

  lemma {:induction false} FirstIndex(ls: seq<Layer>, x: Layer) returns (m: nat)
    requires IsFirst(ls, x)
    ensures m < |ls| && ls[m] == x && forall j :: 0 <= j < m ==> Digest(ls[j]) != Digest(x)
  {
    hide Digest;
    var init := ls[..|ls| - 1];
    if IsFirst(init, x) {
      m := FirstIndex(init, x);
    } else {
      m := |init|;
      SeenIff(init, Digest(x));
    }
  }

  /** `x` is the first layer of rank `r` with its digest. */
  lemma {:induction false} FirstOfRankIndex(ls: seq<Layer>, r: nat, x: Layer) returns (m: nat)
    requires IsFirst(OfRank(ls, r), x)
    ensures m < |ls| && ls[m] == x && Rank(x.kind) == r
    ensures forall j :: 0 <= j < m && Rank(ls[j].kind) == r ==> Digest(ls[j]) != Digest(x)
  {
    hide Digest, Rank;
    var init, last := ls[..|ls| - 1], ls[|ls| - 1];
    assert ls == init + [last];
    OfRankSnoc(init, last, r);
    var f := OfRank(init, r);
    assert (f + [last])[..|f|] == f;
    if IsFirst(f, x) {
      m := FirstOfRankIndex(init, r, x);
    } else {
      m := |init|;
      SeenIff(f, Digest(x));
      forall j | 0 <= j < m && Rank(ls[j].kind) == r ensures Digest(ls[j]) != Digest(x) {
        OfRankHas(init, r, j);
      }
    }
  }

  lemma {:induction false} OfRankHas(ls: seq<Layer>, r: nat, j: nat)
    requires j < |ls| && Rank(ls[j].kind) == r
    ensures ls[j] in OfRank(ls, r)
  {
    hide Rank;
    if j < |ls| - 1 {
      OfRankHas(ls[..|ls| - 1], r, j);
    }
  }

  lemma {:induction false} FirstOfConcat(a: seq<Layer>, b: seq<Layer>, x: Layer)
    ensures IsFirst(a + b, x) <==> IsFirst(a, x) || (IsFirst(b, x) && !Seen(a, Digest(x)))
    ensures Seen(a + b, Digest(x)) <==> Seen(a, Digest(x)) || Seen(b, Digest(x))
  {
    hide Digest;
    if b == [] {
      assert a + b == a;
    } else {
      FirstOfConcat(a, b[..|b| - 1], x);
      assert (a + b)[..|a + b| - 1] == a + b[..|b| - 1];
    }
  }

  /** `m` is a layer with this digest of the highest precedence, and the earliest such layer. */
  ghost predicate Best(ls: seq<Layer>, m: nat, top: nat) {
    && m < |ls|
    && forall j :: 0 <= j < |ls| && Digest(ls[j]) == Digest(ls[m]) && Rank(ls[j].kind) <= top ==>
         Rank(ls[j].kind) < Rank(ls[m].kind) || (Rank(ls[j].kind) == Rank(ls[m].kind) && m <= j)
  }

  lemma {:induction false} FirstIsBest(ls: seq<Layer>, top: nat, x: Layer) returns (m: nat)
    requires IsFirst(OrderFrom(ls, top), x)
    ensures Best(ls, m, top) && ls[m] == x && Rank(x.kind) <= top
  {
    hide Digest, Rank, IsFirst, OfRank, OrderFrom, Seen;
    var first := OfRank(ls, top);
    OrderFromStep(ls, top);
    if IsFirst(first, x) {
      m := FirstOfRankIndex(ls, top, x);
    } else if top > 0 {
      FirstOfConcat(first, OrderFrom(ls, top - 1), x);
      m := FirstIsBest(ls, top - 1, x);
      forall j | 0 <= j < |ls| && Rank(ls[j].kind) == top ensures Digest(ls[j]) != Digest(x) {
        OfRankHas(ls, top, j);
        SeenIff(first, Digest(x));
      }
    }
  }

  /** A layer survives ordering and deduplication only as the earliest of the highest precedence among its
      duplicates. */
  lemma SurvivorIsBest(ls: seq<Layer>, x: Layer) returns (m: nat)
    requires x in Dedupe(Order(ls))
    ensures Best(ls, m, TOP) && ls[m] == x
  {
    hide Best, IsFirst, Dedupe, OrderFrom;
    DedupeIsFirst(Order(ls), x);
    m := FirstIsBest(ls, TOP, x);
  }

  /** Each group of duplicates has a survivor. */
  lemma EveryDigestSurvives(ls: seq<Layer>, l: Layer) returns (x: Layer)
    requires l in ls
    ensures x in Dedupe(Order(ls)) && Digest(x) == Digest(l)
  {
    hide Digest, Seen, Dedupe, OrderFrom, Rank;
    OrderIsStableSort(ls);
    assert l in OfRank(ls, Rank(l.kind)) by {
      var j :| 0 <= j < |ls| && ls[j] == l;
      OfRankHas(ls, Rank(l.kind), j);
    }
    assert OfRank(Order(ls), Rank(l.kind)) == OfRank(ls, Rank(l.kind));
    DedupeKeepsDigest(Order(ls), Digest(l));
    SeenIff(Order(ls), Digest(l));
    SeenIff(Dedupe(Order(ls)), Digest(l));
    var i :| 0 <= i < |Dedupe(Order(ls))| && Digest(Dedupe(Order(ls))[i]) == Digest(l);
    x := Dedupe(Order(ls))[i];
  }

  lemma BestIsUnique(ls: seq<Layer>, m: nat, k: nat)
    requires Best(ls, m, TOP) && Best(ls, k, TOP) && Digest(ls[m]) == Digest(ls[k])
    ensures m == k
  {
    hide Digest, Rank;
  }

  /** A layer survives ordering and deduplication exactly if no layer with the same words has a higher precedence, or
      the same precedence and an earlier place. */
  lemma SurvivesIffBest(ls: seq<Layer>, x: Layer)
    ensures x in Dedupe(Order(ls)) <==> exists m: nat :: m < |ls| && ls[m] == x && Best(ls, m, TOP)
  {
    hide Digest, Rank, Dedupe, Order, Best;
    if x in Dedupe(Order(ls)) {
      var m := SurvivorIsBest(ls, x);
      BestIsInside(ls, m);
    }
    forall m: nat | m < |ls| && ls[m] == x && Best(ls, m, TOP) ensures x in Dedupe(Order(ls)) {
      var y := EveryDigestSurvives(ls, x);
      var k := SurvivorIsBest(ls, y);
      BestIsInside(ls, k);
      BestIsUnique(ls, m, k);
    }
  }

  lemma BestIsInside(ls: seq<Layer>, m: nat)
    requires Best(ls, m, TOP)
    ensures m < |ls|
  {
  }

  /** No task layer before this one has the same words. */
  predicate FirstTask(ls: seq<Layer>, m: nat) {
    m < |ls| && ls[m].kind.Task? && forall j :: 0 <= j < m && ls[j].kind.Task? ==> Digest(ls[j]) != Digest(ls[m])
  }

  lemma BestTaskIsFirst(ls: seq<Layer>, m: nat)
    requires m < |ls| && ls[m].kind.Task?
    ensures Best(ls, m, TOP) <==> FirstTask(ls, m)
  {
    hide Digest;
  }

  /** For a task layer this is that no task layer before it has the same words. */
  lemma TaskIsBestIff(ls: seq<Layer>, x: Layer)
    requires x.kind.Task?
    ensures (exists m: nat :: m < |ls| && ls[m] == x && Best(ls, m, TOP))
            <==> exists m: nat :: FirstTask(ls, m) && ls[m] == x
  {
    hide Best, Digest;
    forall m: nat | m < |ls| && ls[m] == x ensures Best(ls, m, TOP) <==> FirstTask(ls, m) {
      BestTaskIsFirst(ls, m);
    }
  }
}
