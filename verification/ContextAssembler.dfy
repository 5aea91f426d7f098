/** The assembler, which cuts layers in place. */
module ContextAssembler {
  import opened Text
  import opened ContextAssembly
  import opened ContextBudget

  class ContextLayer {
    const kind: LayerType
    const source: string
    const guardrail: bool
    var content: string
    var tokens: nat

    constructor (kind: LayerType, source: string, guardrail: bool, content: string, tokens: nat)
      ensures Value() == Layer(kind, source, guardrail, content, tokens)
    {
      this.kind, this.source, this.guardrail, this.content, this.tokens := kind, source, guardrail, content, tokens;
    }

    function Value(): Layer
      reads this
    {
      Layer(kind, source, guardrail, content, tokens)
    }

    method CutTo(maxTokens: int)
      modifies this
      ensures Value() == Cut(old(Value()), maxTokens)
    {
      content := TruncateToTokens(content, maxTokens);
      tokens := |Split(content)|;
    }
  }

  function Values(layers: seq<ContextLayer>): (vs: seq<Layer>)
    reads layers
    ensures |vs| == |layers|
  {
    if layers == [] then [] else Values(layers[..|layers| - 1]) + [layers[|layers| - 1].Value()]
  }

  /** No layer is listed twice. */
  ghost predicate Different(layers: seq<ContextLayer>) {
    forall i, j :: 0 <= i < j < |layers| ==> layers[i] != layers[j]
  }

  lemma ValuesSnoc(layers: seq<ContextLayer>, l: ContextLayer)
    ensures Values(layers + [l]) == Values(layers) + [l.Value()]
  {
    assert (layers + [l])[..|layers|] == layers;
  }

  lemma {:induction false} ValuesAt(layers: seq<ContextLayer>, i: nat)
    requires i < |layers|
    ensures Values(layers)[i] == layers[i].Value()
  {
    if i < |layers| - 1 {
      ValuesAt(layers[..|layers| - 1], i);
    }
  }

  lemma {:induction false} ValuesPrefix(layers: seq<ContextLayer>, i: nat)
    requires i <= |layers|
    ensures Values(layers[..i]) == Values(layers)[..i]
  {
    if i == |layers| {
      assert layers[..i] == layers;
    } else {
      ValuesPrefix(layers[..|layers| - 1], i);
      assert layers[..|layers| - 1][..i] == layers[..i];
    }
  }

  // ---------------------------------------------------------------------------------------------
  // Order
  // ---------------------------------------------------------------------------------------------

  function LayersOfRank(layers: seq<ContextLayer>, r: nat): (f: seq<ContextLayer>)
    ensures forall l :: l in f ==> l in layers && Rank(l.kind) == r
  {
    if layers == [] then []
    else
      var rest, last := LayersOfRank(layers[..|layers| - 1], r), layers[|layers| - 1];
      if Rank(last.kind) == r then rest + [last] else rest
  }

  function OrderLayersFrom(layers: seq<ContextLayer>, r: nat): (f: seq<ContextLayer>)
    ensures forall l :: l in f ==> l in layers
  {
    LayersOfRank(layers, r) + if r == 0 then [] else OrderLayersFrom(layers, r - 1)
  }

  function OrderLayers(layers: seq<ContextLayer>): (ordered: seq<ContextLayer>)
    ensures forall l :: l in ordered ==> l in layers
  {
    OrderLayersFrom(layers, TOP)
  }

  lemma {:induction false} ValuesConcat(a: seq<ContextLayer>, b: seq<ContextLayer>)
    ensures Values(a + b) == Values(a) + Values(b)
  {
    if b == [] {
      assert a + b == a;
    } else {
      assert (a + b)[..|a + b| - 1] == a + b[..|b| - 1];
      ValuesConcat(a, b[..|b| - 1]);
    }
  }

  lemma {:induction false} ValuesOfRank(layers: seq<ContextLayer>, r: nat)
    ensures Values(LayersOfRank(layers, r)) == OfRank(Values(layers), r)
  {
    if layers != [] {
      hide Rank;
      var init, l := layers[..|layers| - 1], layers[|layers| - 1];
      ValuesOfRank(init, r);
      ValuesSnoc(LayersOfRank(init, r), l);
      OfRankSnoc(Values(init), l.Value(), r);
    }
  }

  lemma {:induction false} ValuesOfOrderFrom(layers: seq<ContextLayer>, r: nat)
    ensures Values(OrderLayersFrom(layers, r)) == OrderFrom(Values(layers), r)
  {
    hide LayersOfRank, OfRank, Values;
    ValuesOfRank(layers, r);
    if r > 0 {
      ValuesOfOrderFrom(layers, r - 1);
      ValuesConcat(LayersOfRank(layers, r), OrderLayersFrom(layers, r - 1));
    } else {
      assert LayersOfRank(layers, 0) + [] == LayersOfRank(layers, 0);
      assert OfRank(Values(layers), 0) + [] == OfRank(Values(layers), 0);
    }
  }

  lemma ValuesOfOrder(layers: seq<ContextLayer>)
    ensures Values(OrderLayers(layers)) == Order(Values(layers))
  {
    ValuesOfOrderFrom(layers, TOP);
    hide OrderLayersFrom, OrderFrom, Values;
  }

  lemma {:induction false} OrderKeepsDifferent(layers: seq<ContextLayer>, r: nat)
    requires Different(layers)
    ensures Different(OrderLayersFrom(layers, r))
    ensures forall l :: l in OrderLayersFrom(layers, r) ==> Rank(l.kind) <= r
  {
    hide Rank, LayersOfRank;
    RankKeepsDifferent(layers, r);
    if r > 0 {
      OrderKeepsDifferent(layers, r - 1);
      DifferentConcat(LayersOfRank(layers, r), OrderLayersFrom(layers, r - 1), r);
    } else {
      assert LayersOfRank(layers, r) + [] == LayersOfRank(layers, r);
    }
  }

  lemma DifferentConcat(a: seq<ContextLayer>, b: seq<ContextLayer>, r: nat)
    requires Different(a) && Different(b)
    requires (forall l :: l in a ==> Rank(l.kind) == r) && forall l :: l in b ==> Rank(l.kind) < r
    ensures Different(a + b)
  {
    hide Rank;
    assert (forall i :: 0 <= i < |a| ==> a[i] in a) && forall i :: 0 <= i < |b| ==> b[i] in b;
  }

  lemma {:induction false} RankKeepsDifferent(layers: seq<ContextLayer>, r: nat)
    requires Different(layers)
    ensures Different(LayersOfRank(layers, r))
  {
    hide Rank;
    if layers != [] {
      var init := layers[..|layers| - 1];
      assert Different(init);
      RankKeepsDifferent(init, r);
      assert forall i :: 0 <= i < |init| ==> layers[i] == init[i];
    }
  }

  // ---------------------------------------------------------------------------------------------
  // Dedupe
  // ---------------------------------------------------------------------------------------------

  method DedupeLayers(ordered: seq<ContextLayer>, audit: seq<Entry>)
    returns (kept: seq<ContextLayer>, dropped: nat, audit': seq<Entry>)
    ensures Values(kept) == Dedupe(Values(ordered)) && forall l :: l in kept ==> l in ordered
    ensures audit' == audit + DuplicateEntries(Values(ordered)) && dropped == |DuplicateEntries(Values(ordered))|
    ensures Different(kept)
  {
    hide Digest, Dedupe, DuplicateEntries, Seen;
    var seen: set<string> := {};
    kept, dropped, audit' := [], 0, audit;
    NothingSeen();
    ghost var vs := Values(ordered);
    for i := 0 to |ordered|
      invariant forall l :: l in kept ==> l in ordered
      invariant forall d :: d in seen <==> Seen(vs[..i], d)
      invariant Values(kept) == Dedupe(vs[..i])
      invariant audit' == audit + DuplicateEntries(vs[..i]) && dropped == |DuplicateEntries(vs[..i])|
    {
      var layer := ordered[i];
      ValuesAt(ordered, i);
      assert vs[..i + 1] == vs[..i] + [layer.Value()];
      DedupeSnoc(vs[..i], layer.Value());
      var digest := Digest(layer.Value());
      if digest in seen {
        dropped := dropped + 1;
        audit' := audit' + [EntryFor(DroppedDuplicate, layer.Value(), layer.tokens, 0)];
      } else {
        ValuesSnoc(kept, layer);
        seen := seen + {digest};
        kept := kept + [layer];
      }
    }
    assert vs[..|ordered|] == vs;
    KeptDifferent(kept, vs);
  }

  lemma NothingSeen()
    ensures Dedupe([]) == [] && DuplicateEntries([]) == [] && forall d :: !Seen([], d)
  {
  }

  /** Layers with different digests are different layers. */
  lemma KeptDifferent(kept: seq<ContextLayer>, vs: seq<Layer>)
    requires Values(kept) == Dedupe(vs)
    ensures Different(kept)
  {
    hide Digest, Dedupe, Values;
    DedupeDistinct(vs);
    forall i, j | 0 <= i < j < |kept| ensures kept[i] != kept[j] {
      ValuesAt(kept, i);
      ValuesAt(kept, j);
    }
  }

  // ---------------------------------------------------------------------------------------------
  // Truncate
  // ---------------------------------------------------------------------------------------------

  lemma CapsSnoc(vs: seq<Layer>, v: Layer, caps: Caps)
    ensures CapAll(vs + [v], caps) == CapAll(vs, caps) + [CapOne(v, caps)]
    ensures CapEntries(vs + [v], caps) == if OverCap(v, caps)
              then CapEntries(vs, caps) + [EntryFor(Truncated, v, v.tokens, CapOne(v, caps).tokens)]
              else CapEntries(vs, caps)
  {
    hide CapOne, OverCap;
    assert (vs + [v])[..|vs|] == vs;
  }

  method CapLayer(layer: ContextLayer, caps: Caps, audit: seq<Entry>) returns (cut: bool, audit': seq<Entry>)
    modifies layer
    ensures var v := old(layer.Value());
      && layer.Value() == CapOne(v, caps) && cut == OverCap(v, caps)
      && audit' == if cut then audit + [EntryFor(Truncated, v, v.tokens, CapOne(v, caps).tokens)] else audit
  {
    hide Cut, IsGuardrail;
    var cap := caps(layer.kind);
    cut, audit' := false, audit;
    if cap != 0 && !IsGuardrail(layer.Value()) && layer.tokens > cap {
      var before := layer.Value();
      layer.CutTo(cap);
      audit' := audit' + [EntryFor(Truncated, before, before.tokens, layer.tokens)];
      cut := true;
    }
  }

  /** From `i` on the layers still have the values `vs`. */
  ghost predicate Untouched(layers: seq<ContextLayer>, i: nat, vs: seq<Layer>)
    reads layers
  {
    |vs| == |layers| && forall j :: i <= j < |layers| ==> layers[j].Value() == vs[j]
  }

  lemma AllUntouched(layers: seq<ContextLayer>)
    ensures Untouched(layers, 0, Values(layers))
  {
    forall j | 0 <= j < |layers| ensures Values(layers)[j] == layers[j].Value() { ValuesAt(layers, j); }
  }

  method CapNext(ordered: seq<ContextLayer>, i: nat, ghost vs: seq<Layer>, caps: Caps, audit: seq<Entry>)
    returns (cut: bool, audit': seq<Entry>)
    requires Different(ordered) && i < |ordered| && Untouched(ordered, i, vs)
    requires Values(ordered[..i]) == CapAll(vs[..i], caps)
    modifies ordered[i]
    ensures Untouched(ordered, i + 1, vs) && Values(ordered[..i + 1]) == CapAll(vs[..i + 1], caps)
    ensures audit' == audit + CapEntries([vs[i]], caps) && cut == (CapEntries([vs[i]], caps) != [])
  {
    hide Values, CapAll, CapOne, OverCap, Different;
    ghost var front := ordered[..i];
    NotBefore(ordered, i);
    CapsSnoc(vs[..i], vs[i], caps);
    CapsSingle(vs[i], caps);
    cut, audit' := CapLayer(ordered[i], caps, audit);
    ValuesSnoc(front, ordered[i]);
    PrefixStep(ordered, i);
    PrefixStep(vs, i);
  }

  lemma CapsSingle(v: Layer, caps: Caps)
    ensures CapEntries([v], caps)
         == if OverCap(v, caps) then [EntryFor(Truncated, v, v.tokens, CapOne(v, caps).tokens)] else []
  {
    hide CapOne, OverCap;
    assert [v][..0] == [];
  }

  lemma EntriesSnoc(vs: seq<Layer>, v: Layer, caps: Caps)
    ensures CapEntries(vs + [v], caps) == CapEntries(vs, caps) + CapEntries([v], caps)
  {
    hide CapOne, OverCap, CapEntries;
    CapsSnoc(vs, v, caps);
    CapsSingle(v, caps);
  }

  method ApplyCaps(ordered: seq<ContextLayer>, caps: Caps, audit: seq<Entry>)
    returns (truncated: bool, audit': seq<Entry>)
    requires Different(ordered)
    modifies set l | l in ordered
    ensures Values(ordered) == CapAll(old(Values(ordered)), caps)
    ensures audit' == audit + CapEntries(old(Values(ordered)), caps)
    ensures truncated == (CapEntries(old(Values(ordered)), caps) != [])
  {
    truncated, audit' := false, audit;
    ghost var vs := Values(ordered);
    AllUntouched(ordered);
    NoValues();
    NoCaps(caps);
    hide Values, CapAll, CapEntries, Different, Untouched;
    for i := 0 to |ordered|
      invariant Untouched(ordered, i, vs) && Values(ordered[..i]) == CapAll(vs[..i], caps)
      invariant audit' == audit + CapEntries(vs[..i], caps) && truncated == (CapEntries(vs[..i], caps) != [])
    {
      PrefixStep(vs, i);
      EntriesSnoc(vs[..i], vs[i], caps);
      var cut;
      cut, audit' := CapNext(ordered, i, vs, caps, audit');
      truncated := truncated || cut;
    }
    WholePrefix(ordered);
    WholePrefix(vs);
  }

  lemma NoCaps(caps: Caps)
    ensures CapAll([], caps) == [] && CapEntries([], caps) == []
  {
  }

  lemma PrefixStep<T>(s: seq<T>, i: nat)
    requires i < |s|
    ensures s[..i + 1] == s[..i] + [s[i]]
  {
  }

  lemma WholePrefix<T>(s: seq<T>)
    ensures s[..|s|] == s
  {
  }

  lemma NotBefore(layers: seq<ContextLayer>, i: nat)
    requires Different(layers) && i < |layers|
    ensures layers[i] !in layers[..i] && forall j :: i < j < |layers| ==> layers[j] != layers[i]
  {
  }

  lemma NoValues()
    ensures Values([]) == []
  {
  }

  /** What one layer adds to the result. */
  function Step(l: Layer, left: nat): Fitted { FitOne(Fitted([], left, [], false), l) }

  lemma {:induction false} FitAddsStep(vs: seq<Layer>, v: Layer, budget: nat)
    ensures var f, d := Fit(vs, budget), Step(v, Fit(vs, budget).left);
      Fit(vs + [v], budget) == Fitted(f.kept + d.kept, d.left, f.entries + d.entries, f.truncated || d.truncated)
  {
    FitSnoc(vs, v, budget);
    hide Fit, Cut, IsGuardrail;
  }

  /** A layer is kept, cut to what is left of the budget and kept, or dropped. */
  method FitLayer(layer: ContextLayer, left: nat, audit: seq<Entry>)
    returns (keep: bool, left': nat, cut: bool, audit': seq<Entry>)
    modifies layer
    ensures var d := Step(old(layer.Value()), left);
      && d.kept == (if keep then [layer.Value()] else []) && d.left == left'
      && d.truncated == cut && audit' == audit + d.entries
  {
    hide Cut, IsGuardrail;
    keep, left', cut, audit' := true, left, false, audit;
    var before := layer.Value();
    if IsGuardrail(before) {
      return;
    }
    if layer.tokens <= left {
      left' := left - layer.tokens;
      return;
    }
    cut := true;
    if left > 0 {
      layer.CutTo(left);
      audit' := audit' + [EntryFor(Truncated, before, before.tokens, layer.tokens)];
      left' := 0;
    } else {
      audit' := audit' + [EntryFor(Dropped, before, before.tokens, 0)];
      keep := false;
    }
  }

  method FitNext(ordered: seq<ContextLayer>, i: nat, ghost vs: seq<Layer>, kept: seq<ContextLayer>, left: nat,
                 audit: seq<Entry>)
    returns (kept': seq<ContextLayer>, left': nat, cut: bool, audit': seq<Entry>)
    requires Different(ordered) && i < |ordered| && Untouched(ordered, i, vs)
    requires Different(kept) && forall l :: l in kept ==> l in ordered[..i]
    modifies ordered[i]
    ensures Untouched(ordered, i + 1, vs)
    ensures Different(kept') && forall l :: l in kept' ==> l in ordered[..i + 1]
    ensures var d := Step(vs[i], left);
      && Values(kept') == old(Values(kept)) + d.kept && left' == d.left && cut == d.truncated
      && audit' == audit + d.entries
  {
    hide Values, Step, Different;
    NotBefore(ordered, i);
    PrefixStep(ordered, i);
    var layer := ordered[i];
    var keep;
    keep, left', cut, audit' := FitLayer(layer, left, audit);
    kept' := kept;
    if keep {
      ValuesSnoc(kept, layer);
      DifferentSnoc(kept, layer);
      kept' := kept + [layer];
    }
  }

  method FitLayers(ordered: seq<ContextLayer>, budget: nat, audit: seq<Entry>)
    returns (kept: seq<ContextLayer>, truncated: bool, audit': seq<Entry>)
    requires Different(ordered)
    modifies set l | l in ordered
    ensures var f := Fit(old(Values(ordered)), budget);
      Values(kept) == f.kept && truncated == f.truncated && audit' == audit + f.entries
    ensures Different(kept) && forall l :: l in kept ==> l in ordered
  {
    kept, truncated, audit' := [], false, audit;
    var left := budget;
    ghost var vs, entries: seq<Entry> := Values(ordered), [];
    AllUntouched(ordered);
    NoValues();
    NoneDifferent();
    assert vs[..0] == [];
    hide Values, Step, Different, Untouched;
    for i := 0 to |ordered|
      invariant Different(kept) && forall l :: l in kept ==> l in ordered[..i]
      invariant Fit(vs[..i], budget) == Fitted(Values(kept), left, entries, truncated) && audit' == audit + entries
      invariant Untouched(ordered, i, vs) && |vs| == |ordered|
    {
      hide Fit;
      PrefixStep(vs, i);
      FitAddsStep(vs[..i], vs[i], budget);
      entries := entries + Step(vs[i], left).entries;
      var cut;
      kept, left, cut, audit' := FitNext(ordered, i, vs, kept, left, audit');
      truncated := truncated || cut;
    }
    WholePrefix(vs);
    WholePrefix(ordered);
  }

  lemma NoneDifferent()
    ensures Different([])
  {
  }

  lemma DifferentSnoc(layers: seq<ContextLayer>, l: ContextLayer)
    requires Different(layers) && l !in layers
    ensures Different(layers + [l])
  {
  }

  method TruncateLayers(layers: seq<ContextLayer>, total: int, caps: Caps, audit: seq<Entry>)
    returns (kept: seq<ContextLayer>, truncated: bool, audit': seq<Entry>)
    requires Different(layers)
    modifies set l | l in layers
    ensures var f := Truncate(old(Values(layers)), total, caps);
      Values(kept) == f.kept && truncated == f.truncated && audit' == audit + f.entries
    ensures Different(kept) && forall l :: l in kept ==> l in layers
  {
    hide Values, OrderLayersFrom, OrderFrom, Fit, CapAll, CapEntries, GuardTokens;
    var ordered := OrderLayers(layers);
    ValuesOfOrder(layers);
    OrderKeepsDifferent(layers, TOP);
    assert forall l :: l in ordered ==> l in layers;
    var capped;
    capped, audit' := ApplyCaps(ordered, caps, audit);
    var guardrails := GuardTokens(Values(ordered));
    var budget := if total <= guardrails then 0 else total - guardrails;
    kept, truncated, audit' := FitLayers(ordered, budget, audit');
    truncated := truncated || capped;
  }

  // ---------------------------------------------------------------------------------------------
  // Assemble
  // ---------------------------------------------------------------------------------------------

  method AssembleLayers(layers: seq<ContextLayer>, total: int, caps: Caps)
    returns (final: seq<ContextLayer>, r: Assembled)
    modifies set l | l in layers
    ensures r == Assemble(old(Values(layers)), total, caps) && Values(final) == r.layers
    ensures forall l :: l in final ==> l in layers
  {
    hide Values, OrderFrom, Dedupe, Truncate, DuplicateEntries, OrderLayersFrom, AddedEntries, Different, Sum;
    ghost var vs0 := Values(layers);
    var ordered := OrderLayers(layers);
    ValuesOfOrder(layers);
    ValuesOfOrderFrom(layers, TOP);
    assert Values(ordered) == Order(vs0);
    var kept, dropped, audit := DedupeLayers(ordered, []);
    assert Values(kept) == Dedupe(Order(vs0));
    assert audit == DuplicateEntries(Order(vs0));
    audit := AddEntries(kept, audit);
    var truncated;
    final, truncated, audit := TruncateLayers(kept, total, caps, audit);
    var vs := Values(final);
    assert vs == Truncate(Dedupe(Order(vs0)), total, caps).kept;
    assert audit == DuplicateEntries(Order(vs0)) + AddedEntries(Dedupe(Order(vs0)))
                    + Truncate(Dedupe(Order(vs0)), total, caps).entries;
    r := Assembled(vs, Sum(vs), truncated, dropped, audit);
  }

  method AddEntries(kept: seq<ContextLayer>, audit: seq<Entry>) returns (audit': seq<Entry>)
    ensures audit' == audit + AddedEntries(Values(kept))
  {
    audit' := audit;
    assert kept[..0] == [];
    for i := 0 to |kept|
      invariant audit' == audit + AddedEntries(Values(kept[..i]))
    {
      hide Values;
      var layer := kept[i];
      PrefixStep(kept, i);
      ValuesSnoc(kept[..i], layer);
      AddedSnoc(Values(kept[..i]), layer.Value());
      audit' := audit' + [EntryFor(Added, layer.Value(), layer.tokens, layer.tokens)];
    }
    WholePrefix(kept);
  }

  lemma AddedSnoc(vs: seq<Layer>, v: Layer)
    ensures AddedEntries(vs + [v]) == AddedEntries(vs) + [EntryFor(Added, v, v.tokens, v.tokens)]
  {
    assert (vs + [v])[..|vs|] == vs;
  }
}
