/** Fitting ordered layers into a token budget. */
module ContextBudget {
  import opened Text
  import opened ContextAssembly

  function WordCount(content: string): nat { |Split(content)| }

  function TruncateToTokens(content: string, maxTokens: int): string {
    if maxTokens <= 0 then ""
    else
      var words := Split(content);
      if |words| <= maxTokens then content else Join(words[..maxTokens])
  }

  /** Truncated text has as many words as allowed, or all it had. */
  lemma TruncatedCount(content: string, maxTokens: int)
    ensures WordCount(TruncateToTokens(content, maxTokens))
         == if maxTokens <= 0 then 0 else if WordCount(content) <= maxTokens then WordCount(content) else maxTokens
  {
    if maxTokens > 0 && WordCount(content) > maxTokens {
      var words := Split(content);
      assert forall w :: w in words[..maxTokens] ==> w in words;
      hide Split, Join;
      SplitOfJoin(words[..maxTokens]);
    }
  }

  /** Truncated text consists of the first words of the text, as many as are allowed; a text that fits is left as it is,
      and one that is cut has single blanks between its words. */
  lemma TruncatedKeepsFirstWords(content: string, maxTokens: int)
    ensures var words, kept := Split(content), TruncateToTokens(content, maxTokens);
      if maxTokens <= 0 then kept == ""
      else if |words| <= maxTokens then kept == content
      else kept == Join(words[..maxTokens]) && Split(kept) == words[..maxTokens]
  {
    if maxTokens > 0 && WordCount(content) > maxTokens {
      var words := Split(content);
      assert forall w :: w in words[..maxTokens] ==> w in words;
      hide Split, Join;
      SplitOfJoin(words[..maxTokens]);
    }
  }

  type Caps = LayerType -> int

  function Cut(l: Layer, maxTokens: int): Layer {
    var content := TruncateToTokens(l.content, maxTokens);
    l.(content := content, tokens := WordCount(content))
  }

  /** `y` is `x` with the first `n` of its words, counted as its tokens; its text is left as it is if it has no more. */
  ghost predicate FirstWords(y: Layer, x: Layer, n: nat) {
    var words := Split(x.content);
    && y.kind == x.kind && y.source == x.source && y.guardrail == x.guardrail
    && y.tokens == |Split(y.content)|
    && if n == 0 then y.content == ""
       else if |words| <= n then y.content == x.content
       else y.content == Join(words[..n]) && Split(y.content) == words[..n]
  }

  lemma CutKeepsFirstWords(l: Layer, maxTokens: int)
    ensures FirstWords(Cut(l, maxTokens), l, if maxTokens < 0 then 0 else maxTokens)
  {
    TruncatedKeepsFirstWords(l.content, maxTokens);
    hide Split, Join, TruncateToTokens;
  }

  predicate OverCap(l: Layer, caps: Caps) {
    caps(l.kind) != 0 && !IsGuardrail(l) && l.tokens > caps(l.kind)
  }

  function CapOne(l: Layer, caps: Caps): Layer { if OverCap(l, caps) then Cut(l, caps(l.kind)) else l }

  function CapAll(ls: seq<Layer>, caps: Caps): (r: seq<Layer>)
    ensures |r| == |ls|
  {
    if ls == [] then [] else CapAll(ls[..|ls| - 1], caps) + [CapOne(ls[|ls| - 1], caps)]
  }

  function CapEntries(ls: seq<Layer>, caps: Caps): seq<Entry> {
    if ls == [] then []
    else
      var rest, l := CapEntries(ls[..|ls| - 1], caps), ls[|ls| - 1];
      if OverCap(l, caps) then rest + [EntryFor(Truncated, l, l.tokens, CapOne(l, caps).tokens)] else rest
  }

  function GuardTokens(ls: seq<Layer>): nat {
    if ls == [] then 0
    else GuardTokens(ls[..|ls| - 1]) + if IsGuardrail(ls[|ls| - 1]) then ls[|ls| - 1].tokens else 0
  }

  /** The tokens of the layers that are not guardrails. */
  function Spend(ls: seq<Layer>): nat {
    if ls == [] then 0
    else Spend(ls[..|ls| - 1]) + if IsGuardrail(ls[|ls| - 1]) then 0 else ls[|ls| - 1].tokens
  }

  function Guards(ls: seq<Layer>): seq<Layer> {
    if ls == [] then []
    else
      var rest := Guards(ls[..|ls| - 1]);
      if IsGuardrail(ls[|ls| - 1]) then rest + [ls[|ls| - 1]] else rest
  }

  datatype Fitted = Fitted(kept: seq<Layer>, left: nat, entries: seq<Entry>, truncated: bool)

  function FitOne(f: Fitted, l: Layer): Fitted {
    if IsGuardrail(l) then f.(kept := f.kept + [l])
    else if l.tokens <= f.left then f.(kept := f.kept + [l], left := f.left - l.tokens)
    else if f.left > 0 then
      var c := Cut(l, f.left);
      Fitted(f.kept + [c], 0, f.entries + [EntryFor(Truncated, l, l.tokens, c.tokens)], true)
    else f.(entries := f.entries + [EntryFor(Dropped, l, l.tokens, 0)], truncated := true)
  }

  /** The layers taken in order as long as the budget lasts. */
  function Fit(ls: seq<Layer>, left: nat): Fitted {
    if ls == [] then Fitted([], left, [], false) else FitOne(Fit(ls[..|ls| - 1], left), ls[|ls| - 1])
  }

  function Budget(ls: seq<Layer>, total: int): nat {
    if total <= GuardTokens(ls) then 0 else total - GuardTokens(ls)
  }

  function Truncate(ls: seq<Layer>, total: int, caps: Caps): Fitted {
    var ordered := Order(ls);
    var capped := CapAll(ordered, caps);
    var f := Fit(capped, Budget(capped, total));
    Fitted(f.kept, f.left, CapEntries(ordered, caps) + f.entries, f.truncated || CapEntries(ordered, caps) != [])
  }

  // ---------------------------------------------------------------------------------------------
  // One layer more
  // ---------------------------------------------------------------------------------------------

  lemma SumsSnoc(ls: seq<Layer>, l: Layer)
    ensures GuardTokens(ls + [l]) == GuardTokens(ls) + if IsGuardrail(l) then l.tokens else 0
    ensures Spend(ls + [l]) == Spend(ls) + if IsGuardrail(l) then 0 else l.tokens
    ensures Guards(ls + [l]) == if IsGuardrail(l) then Guards(ls) + [l] else Guards(ls)
  {
    hide IsGuardrail;
    assert (ls + [l])[..|ls|] == ls;
  }

  lemma FitSnoc(ls: seq<Layer>, l: Layer, left: nat)
    ensures Fit(ls + [l], left) == FitOne(Fit(ls, left), l)
  {
    hide FitOne;
    assert (ls + [l])[..|ls|] == ls;
  }

  // ---------------------------------------------------------------------------------------------
  // What fitting keeps
  // ---------------------------------------------------------------------------------------------

  lemma FitOneWithin(f: Fitted, l: Layer)
    ensures var g := FitOne(f, l);
      && Guards(g.kept) == (if IsGuardrail(l) then Guards(f.kept) + [l] else Guards(f.kept))
      && Spend(g.kept) + g.left <= Spend(f.kept) + f.left
  {
    hide Spend, Guards, TruncateToTokens, WordCount, IsGuardrail;
    if IsGuardrail(l) || l.tokens <= f.left {
      SumsSnoc(f.kept, l);
    } else if f.left > 0 {
      var c := Cut(l, f.left);
      TruncatedCount(l.content, f.left);
      assert IsGuardrail(c) == IsGuardrail(l) by { CutKeepsKind(l, f.left); }
      SumsSnoc(f.kept, c);
    }
  }

  lemma CutKeepsKind(l: Layer, maxTokens: int)
    ensures IsGuardrail(Cut(l, maxTokens)) == IsGuardrail(l) && Cut(l, maxTokens).kind == l.kind
  {
    hide TruncateToTokens, WordCount;
  }

  /** Guardrails come through unchanged; the other layers stay within what was left for them. */
  lemma {:induction false} FitWithin(ls: seq<Layer>, left: nat)
    ensures var f := Fit(ls, left);
      Guards(f.kept) == Guards(ls) && Spend(f.kept) + f.left <= left
  {
    if ls != [] {
      hide *;
      var init, l := ls[..|ls| - 1], ls[|ls| - 1];
      assert ls == init + [l];
      FitWithin(init, left);
      FitSnoc(init, l, left);
      FitOneWithin(Fit(init, left), l);
      SumsSnoc(init, l);
    }
  }

  lemma FitOneCounts(f: Fitted, l: Layer)
    ensures var g := FitOne(f, l);
      && |g.kept| + CountOf(g.entries, Dropped) == |f.kept| + CountOf(f.entries, Dropped) + 1
      && CountOf(g.entries, DroppedDuplicate) == CountOf(f.entries, DroppedDuplicate)
  {
    hide CountOf, Cut, IsGuardrail;
    CountSnoc(f.entries, EntryFor(Truncated, l, l.tokens, Cut(l, f.left).tokens));
    CountSnoc(f.entries, EntryFor(Dropped, l, l.tokens, 0));
  }

  /** Every layer is kept, perhaps cut, or has an audit entry that it was dropped. */
  lemma {:induction false} FitCounts(ls: seq<Layer>, left: nat)
    ensures |ls| == |Fit(ls, left).kept| + CountOf(Fit(ls, left).entries, Dropped)
    ensures CountOf(Fit(ls, left).entries, DroppedDuplicate) == 0
  {
    if ls != [] {
      hide *;
      var init, l := ls[..|ls| - 1], ls[|ls| - 1];
      assert ls == init + [l];
      FitCounts(init, left);
      FitSnoc(init, l, left);
      FitOneCounts(Fit(init, left), l);
    }
  }

  function CountOf(entries: seq<Entry>, a: Action): nat {
    if entries == [] then 0
    else CountOf(entries[..|entries| - 1], a) + if entries[|entries| - 1].action == a then 1 else 0
  }

  lemma CountSnoc(entries: seq<Entry>, e: Entry)
    ensures forall a :: CountOf(entries + [e], a) == CountOf(entries, a) + if e.action == a then 1 else 0
  {
    assert (entries + [e])[..|entries|] == entries;
  }

  // ---------------------------------------------------------------------------------------------
  // The closed form
  // ---------------------------------------------------------------------------------------------

  /** The layers that cost nothing: guardrails, and layers without tokens. */
  function Free(ls: seq<Layer>): seq<Layer> {
    if ls == [] then []
    else
      var rest, l := Free(ls[..|ls| - 1]), ls[|ls| - 1];
      if IsGuardrail(l) || l.tokens == 0 then rest + [l] else rest
  }

  /** The audit entries for the other layers: they are dropped. */
  function DroppedEntries(ls: seq<Layer>): seq<Entry> {
    if ls == [] then []
    else
      var rest, l := DroppedEntries(ls[..|ls| - 1]), ls[|ls| - 1];
      if IsGuardrail(l) || l.tokens == 0 then rest else rest + [Entry(Dropped, l.kind, l.source, l.tokens, 0)]
  }

  function CutToFit(l: Layer, left: nat): seq<Layer> { if left > 0 then [Cut(l, left)] else [] }

  function CutEntry(l: Layer, left: nat): Entry {
    if left > 0 then Entry(Truncated, l.kind, l.source, l.tokens, Cut(l, left).tokens)
    else Entry(Dropped, l.kind, l.source, l.tokens, 0)
  }

  /** The budget covers all layers. */
  ghost predicate AllFit(f: Fitted, ls: seq<Layer>, left: nat) {
    Spend(ls) <= left && f == Fitted(ls, left - Spend(ls), [], false)
  }

  /** The layers of `front` are kept; `x` exhausts the budget and is cut to what is left of it, or dropped if nothing
      is; behind it only what costs nothing is kept. */
  ghost predicate Exhausted(f: Fitted, front: seq<Layer>, x: Layer, behind: seq<Layer>, left: nat) {
    && Spend(front) <= left && !IsGuardrail(x) && Spend(front) + x.tokens > left
    && f.left == 0 && f.truncated
    && f.kept == front + CutToFit(x, left - Spend(front)) + Free(behind)
    && f.entries == [CutEntry(x, left - Spend(front))] + DroppedEntries(behind)
  }

  lemma AllFitStep(f: Fitted, ls: seq<Layer>, left: nat, l: Layer)
    requires AllFit(f, ls, left)
    ensures if IsGuardrail(l) || Spend(ls) + l.tokens <= left then AllFit(FitOne(f, l), ls + [l], left)
            else Exhausted(FitOne(f, l), ls, l, [], left)
  {
    hide Spend, Cut, IsGuardrail;
    SumsSnoc(ls, l);
    assert Free([]) == [] && DroppedEntries([]) == [];
    hide Free, DroppedEntries;
  }

  lemma ExhaustedStep(f: Fitted, front: seq<Layer>, x: Layer, behind: seq<Layer>, left: nat, l: Layer)
    requires Exhausted(f, front, x, behind, left)
    ensures Exhausted(FitOne(f, l), front, x, behind + [l], left)
  {
    hide Spend, CutToFit, CutEntry, IsGuardrail, Free, DroppedEntries, Cut;
    FreeSnoc(behind, l);
  }

  lemma SplitSnoc(init: seq<Layer>, l: Layer, k: nat)
    requires k <= |init|
    ensures (init + [l])[..k] == init[..k]
    ensures if k < |init| then (init + [l])[k] == init[k] && (init + [l])[k + 1..] == init[k + 1..] + [l]
            else (init + [l])[k] == l && (init + [l])[k + 1..] == [] && init[..k] == init
  {
  }

  lemma {:induction false} FitShape(ls: seq<Layer>, left: nat) returns (k: nat)
    ensures k <= |ls|
    ensures if k == |ls| then AllFit(Fit(ls, left), ls, left)
            else Exhausted(Fit(ls, left), ls[..k], ls[k], ls[k + 1..], left)
  {
    if ls == [] {
      k := 0;
    } else {
      hide *;
      var init, l := ls[..|ls| - 1], ls[|ls| - 1];
      assert ls == init + [l];
      k := FitShape(init, left);
      FitSnoc(init, l, left);
      var f := Fit(init, left);
      if k == |init| {
        SplitSnoc(init, l, k);
        AllFitStep(f, init, left, l);
        if IsGuardrail(l) || Spend(init) + l.tokens <= left {
          k := |ls|;
        }
      } else {
        SplitSnoc(init, l, k);
        ExhaustedStep(f, init[..k], init[k], init[k + 1..], left, l);
      }
    }
  }

  /** Either everything fits, or the layers are a front, which is kept, one layer that exhausts the budget, and a rest,
      of which only what costs nothing is kept. The layer that exhausts the budget keeps exactly the first words that
      fit, and is dropped if nothing is left. The audit says what was cut and dropped, in order. */
  lemma FitIs(ls: seq<Layer>, left: nat) returns (k: nat)
    ensures k <= |ls|
    ensures if k == |ls| then AllFit(Fit(ls, left), ls, left)
            else Exhausted(Fit(ls, left), ls[..k], ls[k], ls[k + 1..], left)
    ensures k < |ls| && left > Spend(ls[..k]) ==>
      && k < |Fit(ls, left).kept| && FirstWords(Fit(ls, left).kept[k], ls[k], left - Spend(ls[..k]))
      && Fit(ls, left).entries[0]
         == Entry(Truncated, ls[k].kind, ls[k].source, ls[k].tokens, Fit(ls, left).kept[k].tokens)
  {
    hide Fit, Spend, Free, DroppedEntries, Cut, FirstWords, IsGuardrail;
    k := FitShape(ls, left);
    if k < |ls| && left > Spend(ls[..k]) {
      CutKeepsFirstWords(ls[k], left - Spend(ls[..k]));
    }
  }

  lemma FreeSnoc(ls: seq<Layer>, l: Layer)
    ensures Free(ls + [l]) == if IsGuardrail(l) || l.tokens == 0 then Free(ls) + [l] else Free(ls)
    ensures DroppedEntries(ls + [l]) == if IsGuardrail(l) || l.tokens == 0 then DroppedEntries(ls)
              else DroppedEntries(ls) + [Entry(Dropped, l.kind, l.source, l.tokens, 0)]
  {
    hide IsGuardrail;
    assert (ls + [l])[..|ls|] == ls;
  }

  // ---------------------------------------------------------------------------------------------
  // Truncating twice
  // ---------------------------------------------------------------------------------------------

  /** Its cap does not change it. */
  ghost predicate Settled(l: Layer, caps: Caps) { CapOne(l, caps) == l }

  lemma CutTwice(l: Layer, maxTokens: int)
    requires maxTokens <= 0
    ensures Cut(Cut(l, maxTokens), maxTokens) == Cut(l, maxTokens)
  {
  }

  lemma CapOneSettles(l: Layer, caps: Caps)
    ensures Settled(CapOne(l, caps), caps)
  {
    hide WordCount, TruncateToTokens;
    var cap := caps(l.kind);
    TruncatedCount(l.content, cap);
    if cap <= 0 {
      CutTwice(l, cap);
    }
  }

  lemma CutStaysSettled(l: Layer, caps: Caps, left: nat)
    requires Settled(l, caps) && !IsGuardrail(l) && l.tokens > left
    ensures Settled(Cut(l, left), caps)
  {
    hide WordCount, TruncateToTokens;
    TruncatedCount(l.content, left);
    TruncatedCount(l.content, caps(l.kind));
  }

  ghost predicate AllSettled(ls: seq<Layer>, caps: Caps) { forall i :: 0 <= i < |ls| ==> Settled(ls[i], caps) }

  /** Every layer of `kept` is of at least the precedence of `l`. */
  ghost predicate AllAbove(kept: seq<Layer>, l: Layer) {
    forall i :: 0 <= i < |kept| ==> Rank(kept[i].kind) >= Rank(l.kind)
  }

  lemma SortedSnoc(ls: seq<Layer>, l: Layer)
    ensures Sorted(ls + [l]) <==> Sorted(ls) && AllAbove(ls, l)
  {
    hide Rank;
    var all := ls + [l];
    assert forall i :: 0 <= i < |ls| ==> all[i] == ls[i];
    assert all[|ls|] == l;
  }

  /** Fitting keeps the layers settled and in order. */
  lemma {:induction false} FitStays(ls: seq<Layer>, left: nat, caps: Caps, floor: Layer)
    requires Sorted(ls) && AllSettled(ls, caps) && AllAbove(ls, floor)
    ensures var f := Fit(ls, left); Sorted(f.kept) && AllSettled(f.kept, caps) && AllAbove(f.kept, floor)
  {
    if ls != [] {
      var init, l := ls[..|ls| - 1], ls[|ls| - 1];
      assert ls == init + [l];
      hide Fit, Settled, Rank, Sorted;
      SortedSnoc(init, l);
      FitStays(init, left, caps, floor);
      FitStays(init, left, caps, l);
      FitSnoc(init, l, left);
      FitOneStays(Fit(init, left), l, caps, floor);
    }
  }

  lemma FitOneStays(f: Fitted, l: Layer, caps: Caps, floor: Layer)
    requires Sorted(f.kept) && AllSettled(f.kept, caps) && AllAbove(f.kept, l) && AllAbove(f.kept, floor)
    requires Settled(l, caps) && Rank(l.kind) >= Rank(floor.kind)
    ensures var g := FitOne(f, l); Sorted(g.kept) && AllSettled(g.kept, caps) && AllAbove(g.kept, floor)
  {
    hide Sorted, Rank, Settled, IsGuardrail, Cut;
    SortedSnoc(f.kept, l);
    if !IsGuardrail(l) && l.tokens > f.left > 0 {
      var c := Cut(l, f.left);
      CutKeepsKind(l, f.left);
      CutStaysSettled(l, caps, f.left);
      SortedSnoc(f.kept, c);
    }
  }

  lemma {:induction false} CapAllAt(ls: seq<Layer>, caps: Caps, i: nat)
    requires i < |ls|
    ensures CapAll(ls, caps)[i] == CapOne(ls[i], caps)
  {
    hide CapOne;
    if i < |ls| - 1 {
      CapAllAt(ls[..|ls| - 1], caps, i);
    }
  }

  lemma {:induction false} CapsOfSettled(ls: seq<Layer>, caps: Caps)
    requires AllSettled(ls, caps)
    ensures CapAll(ls, caps) == ls
  {
    hide CapAll, CapOne;
    forall i | 0 <= i < |ls| ensures CapAll(ls, caps)[i] == ls[i] {
      CapAllAt(ls, caps, i);
      assert Settled(ls[i], caps);
    }
  }

  lemma {:induction false} FitOfFitting(ls: seq<Layer>, left: nat)
    requires Spend(ls) <= left
    ensures AllFit(Fit(ls, left), ls, left)
  {
    if ls != [] {
      hide *;
      var init, l := ls[..|ls| - 1], ls[|ls| - 1];
      assert ls == init + [l];
      SumsSnoc(init, l);
      FitOfFitting(init, left);
      FitSnoc(init, l, left);
      AllFitStep(Fit(init, left), init, left, l);
    }
  }

  lemma {:induction false} GuardTokensOfGuards(ls: seq<Layer>)
    ensures GuardTokens(ls) == GuardTokens(Guards(ls))
  {
    if ls != [] {
      hide *;
      var init, l := ls[..|ls| - 1], ls[|ls| - 1];
      assert ls == init + [l];
      GuardTokensOfGuards(init);
      SumsSnoc(init, l);
      SumsSnoc(Guards(init), l);
    }
  }

  lemma {:induction false} CapsKeepGuards(ls: seq<Layer>, caps: Caps)
    ensures Guards(CapAll(ls, caps)) == Guards(ls)
  {
    if ls != [] {
      var init, l := ls[..|ls| - 1], ls[|ls| - 1];
      assert ls == init + [l];
      CapsKeepGuards(init, caps);
      SumsSnoc(init, l);
      CutKeepsKind(l, caps(l.kind));
      hide Guards, Cut, IsGuardrail;
      SumsSnoc(CapAll(init, caps), CapOne(l, caps));
    }
  }

  lemma CappedIsSorted(ls: seq<Layer>, caps: Caps)
    requires Sorted(ls)
    ensures Sorted(CapAll(ls, caps)) && AllSettled(CapAll(ls, caps), caps)
  {
    hide CapAll, Rank, Settled;
    var r := CapAll(ls, caps);
    forall i | 0 <= i < |r| ensures Settled(r[i], caps) && r[i].kind == ls[i].kind {
      CapAllAt(ls, caps, i);
      CapOneSettles(ls[i], caps);
      CutKeepsKind(ls[i], caps(ls[i].kind));
    }
  }

  /** Truncation keeps every guardrail as it is. */
  lemma TruncateKeepsGuardrails(ls: seq<Layer>, total: int, caps: Caps)
    ensures Guards(Truncate(ls, total, caps).kept) == Guards(Order(ls))
  {
    hide Fit, Guards, CapAll, OrderFrom, GuardTokens;
    var capped := CapAll(Order(ls), caps);
    CapsKeepGuards(Order(ls), caps);
    FitWithin(capped, Budget(capped, total));
  }

  /** The other layers stay within what the guardrails leave of the budget. */
  lemma TruncateStaysWithinBudget(ls: seq<Layer>, total: int, caps: Caps)
    ensures Spend(Truncate(ls, total, caps).kept) <= Budget(Order(ls), total)
  {
    hide Fit, Guards, CapAll, OrderFrom, GuardTokens, Spend;
    var capped := CapAll(Order(ls), caps);
    CapsKeepGuards(Order(ls), caps);
    GuardTokensOfGuards(capped);
    GuardTokensOfGuards(Order(ls));
    FitWithin(capped, Budget(capped, total));
  }

  lemma {:induction false} NoEntriesOfSettled(ls: seq<Layer>, caps: Caps)
    requires AllSettled(ls, caps) && forall k :: caps(k) >= 0
    ensures CapEntries(ls, caps) == []
  {
    if ls != [] {
      var init, l := ls[..|ls| - 1], ls[|ls| - 1];
      NoEntriesOfSettled(init, caps);
      TruncatedCount(l.content, caps(l.kind));
      hide TruncateToTokens, WordCount;
    }
  }

  lemma SettledIsWithinCap(l: Layer, caps: Caps)
    requires Settled(l, caps) && !IsGuardrail(l) && caps(l.kind) > 0
    ensures l.tokens <= caps(l.kind)
  {
    hide TruncateToTokens, WordCount;
    TruncatedCount(l.content, caps(l.kind));
  }

  /** No layer that is kept exceeds its cap, guardrails excepted. */
  lemma TruncateRespectsCaps(ls: seq<Layer>, total: int, caps: Caps, i: nat)
    requires i < |Truncate(ls, total, caps).kept|
    ensures var l := Truncate(ls, total, caps).kept[i]; !IsGuardrail(l) && caps(l.kind) > 0 ==> l.tokens <= caps(l.kind)
  {
    hide Fit, CapAll, OrderFrom, GuardTokens, Sorted, Settled, CapEntries, IsGuardrail;
    var ordered := Order(ls);
    var capped := CapAll(ordered, caps);
    OrderIsStableSort(ls);
    CappedIsSorted(ordered, caps);
    var floor := Layer(Retrieved, "", false, "", 0);
    assert AllAbove(capped, floor);
    FitStays(capped, Budget(capped, total), caps, floor);
    var l := Truncate(ls, total, caps).kept[i];
    if !IsGuardrail(l) && caps(l.kind) > 0 {
      SettledIsWithinCap(l, caps);
    }
  }

  /** With the caps used when the caller gives none: research layers are kept within 1500 tokens, global, project and
      user layers within 4000, guardrails excepted. */
  lemma DefaultCapsAreRespected(ls: seq<Layer>, total: int, i: nat)
    requires i < |Truncate(ls, total, DefaultCap).kept|
    ensures var l := Truncate(ls, total, DefaultCap).kept[i];
      !IsGuardrail(l) ==> (l.kind.Research? ==> l.tokens <= 1500)
                          && (l.kind.Global? || l.kind.Project? || l.kind.User? ==> l.tokens <= 4000)
  {
    hide Truncate, IsGuardrail;
    TruncateRespectsCaps(ls, total, DefaultCap, i);
  }

  /** Truncating a second time changes no layer, and reports nothing unless a cap is negative. */
  lemma TruncateTwice(ls: seq<Layer>, total: int, caps: Caps)
    ensures var kept := Truncate(ls, total, caps).kept;
      var again := Truncate(kept, total, caps);
      again.kept == kept && ((forall k :: caps(k) >= 0) ==> again.entries == [] && !again.truncated)
  {
    hide Fit, Guards, CapAll, OrderFrom, GuardTokens, Spend, Sorted, AllSettled, CapEntries;
    var ordered := Order(ls);
    var capped := CapAll(ordered, caps);
    var kept := Truncate(ls, total, caps).kept;
    OrderIsStableSort(ls);
    CappedIsSorted(ordered, caps);
    var floor := Layer(Retrieved, "", false, "", 0);
    assert AllAbove(capped, floor);
    FitStays(capped, Budget(capped, total), caps, floor);
    OrderOfSorted(kept);
    CapsOfSettled(kept, caps);
    TruncateStaysWithinBudget(ls, total, caps);
    TruncateKeepsGuardrails(ls, total, caps);
    GuardTokensOfGuards(kept);
    GuardTokensOfGuards(ordered);
    FitOfFitting(kept, Budget(kept, total));
    if forall k :: caps(k) >= 0 {
      NoEntriesOfSettled(kept, caps);
    }
  }

  // ---------------------------------------------------------------------------------------------
  // Assembly
  // ---------------------------------------------------------------------------------------------

  function AddedEntries(ls: seq<Layer>): seq<Entry> {
    if ls == [] then []
    else AddedEntries(ls[..|ls| - 1]) + [EntryFor(Added, ls[|ls| - 1], ls[|ls| - 1].tokens, ls[|ls| - 1].tokens)]
  }

  function Sum(ls: seq<Layer>): nat {
    if ls == [] then 0 else Sum(ls[..|ls| - 1]) + ls[|ls| - 1].tokens
  }

  datatype Assembled = Assembled(layers: seq<Layer>, tokens: nat, truncated: bool, duplicates: nat, audit: seq<Entry>)

  function Assemble(ls: seq<Layer>, total: int, caps: Caps): Assembled {
    var ordered := Order(ls);
    var kept := Dedupe(ordered);
    var f := Truncate(kept, total, caps);
    var duplicates := DuplicateEntries(ordered);
    Assembled(f.kept, Sum(f.kept), f.truncated, |duplicates|, duplicates + AddedEntries(kept) + f.entries)
  }

  lemma {:induction false} CountConcat(a: seq<Entry>, b: seq<Entry>, action: Action)
    ensures CountOf(a + b, action) == CountOf(a, action) + CountOf(b, action)
  {
    if b == [] {
      assert a + b == a;
    } else {
      assert (a + b)[..|a + b| - 1] == a + b[..|b| - 1];
      CountConcat(a, b[..|b| - 1], action);
    }
  }

  lemma {:induction false} CountUniform(entries: seq<Entry>, a: Action, action: Action)
    requires forall e :: e in entries ==> e.action == a
    ensures CountOf(entries, action) == if a == action then |entries| else 0
  {
    if entries != [] {
      assert entries[|entries| - 1] in entries;
      CountUniform(entries[..|entries| - 1], a, action);
    }
  }

  lemma {:induction false} AddedAre(ls: seq<Layer>)
    ensures |AddedEntries(ls)| == |ls| && forall e :: e in AddedEntries(ls) ==> e.action == Added
  {
    if ls != [] {
      AddedAre(ls[..|ls| - 1]);
    }
  }

  lemma {:induction false} CapEntriesAre(ls: seq<Layer>, caps: Caps)
    ensures forall e :: e in CapEntries(ls, caps) ==> e.action == Truncated
  {
    if ls != [] {
      hide OverCap, CapOne;
      CapEntriesAre(ls[..|ls| - 1], caps);
    }
  }

  lemma {:induction false} OrderFromLength(ls: seq<Layer>, top: nat)
    ensures |OrderFrom(ls, top)| == CountUpTo(ls, top)
  {
    hide *;
    OrderFromStep(ls, top);
    CountUpToStep(ls, top);
    if top > 0 {
      OrderFromLength(ls, top - 1);
    }
  }

  /** How many layers there are of rank `top` and below. */
  function CountUpTo(ls: seq<Layer>, top: nat): nat {
    if ls == [] then 0 else CountUpTo(ls[..|ls| - 1], top) + if Rank(ls[|ls| - 1].kind) <= top then 1 else 0
  }

  lemma {:induction false} CountUpToStep(ls: seq<Layer>, top: nat)
    ensures CountUpTo(ls, top) == |OfRank(ls, top)| + if top > 0 then CountUpTo(ls, top - 1) else 0
  {
    hide Rank;
    if ls != [] {
      CountUpToStep(ls[..|ls| - 1], top);
    }
  }

  lemma {:induction false} CountUpToAll(ls: seq<Layer>)
    ensures CountUpTo(ls, TOP) == |ls|
  {
    hide Rank;
    if ls != [] {
      CountUpToAll(ls[..|ls| - 1]);
    }
  }

  /** Every input layer is in the result, or the audit says that it was dropped as a duplicate or for the budget. */
  lemma AssemblyAccountsForEveryLayer(ls: seq<Layer>, total: int, caps: Caps)
    ensures var r := Assemble(ls, total, caps);
      && |ls| == |r.layers| + CountOf(r.audit, DroppedDuplicate) + CountOf(r.audit, Dropped)
      && r.duplicates == CountOf(r.audit, DroppedDuplicate)
  {
    hide *;
    var ordered := Order(ls);
    var kept := Dedupe(ordered);
    var f := Truncate(kept, total, caps);
    OrderLength(ls);
    DedupeCounts(ordered);
    OrderLength(kept);
    TruncateCounts(kept, total, caps);
    AssembledAuditCounts(ls, total, caps, DroppedDuplicate);
    AssembledAuditCounts(ls, total, caps, Dropped);
    AssembleIs(ls, total, caps);
  }

  lemma AssembleIs(ls: seq<Layer>, total: int, caps: Caps)
    ensures var r := Assemble(ls, total, caps);
      && r.layers == Truncate(Dedupe(Order(ls)), total, caps).kept
      && r.duplicates == |DuplicateEntries(Order(ls))|
  {
    hide Truncate, Dedupe, Order, DuplicateEntries, AddedEntries;
  }

  lemma OrderLength(ls: seq<Layer>)
    ensures |Order(ls)| == |ls|
  {
    OrderFromLength(ls, TOP);
    CountUpToAll(ls);
    hide CountUpTo, OrderFrom;
  }

  lemma TruncateCounts(ls: seq<Layer>, total: int, caps: Caps)
    ensures var f := Truncate(ls, total, caps);
      |Order(ls)| == |f.kept| + CountOf(f.entries, Dropped) && CountOf(f.entries, DroppedDuplicate) == 0
  {
    hide Order, CapAll, CapEntries, Fit, Budget, CountOf;
    var ordered := Order(ls);
    var capped := CapAll(ordered, caps);
    var fit := Fit(capped, Budget(capped, total));
    FitCounts(capped, Budget(capped, total));
    CapEntriesAre(ordered, caps);
    CountUniform(CapEntries(ordered, caps), Truncated, Dropped);
    CountUniform(CapEntries(ordered, caps), Truncated, DroppedDuplicate);
    CountConcat(CapEntries(ordered, caps), fit.entries, Dropped);
    CountConcat(CapEntries(ordered, caps), fit.entries, DroppedDuplicate);
  }

  lemma {:induction false} AssembledAuditCounts(ls: seq<Layer>, total: int, caps: Caps, action: Action)
    requires !action.Added?
    ensures CountOf(Assemble(ls, total, caps).audit, action)
         == (if action.DroppedDuplicate? then |DuplicateEntries(Order(ls))| else 0)
            + CountOf(Truncate(Dedupe(Order(ls)), total, caps).entries, action)
  {
    hide Order, Dedupe, Truncate, DuplicateEntries, AddedEntries, CountOf;
    var ordered := Order(ls);
    var duplicates, added := DuplicateEntries(ordered), AddedEntries(Dedupe(ordered));
    DedupeCounts(ordered);
    AddedAre(Dedupe(ordered));
    CountUniform(duplicates, DroppedDuplicate, action);
    CountUniform(added, Added, action);
    CountConcat(duplicates, added, action);
    CountConcat(duplicates + added, Truncate(Dedupe(ordered), total, caps).entries, action);
  }

  // ---------------------------------------------------------------------------------------------
  // Guardrails that are duplicates
  // ---------------------------------------------------------------------------------------------

  lemma {:induction false} GuardsMember(ls: seq<Layer>, x: Layer)
    requires IsGuardrail(x)
    ensures x in Guards(ls) <==> x in ls
  {
    hide IsGuardrail;
    if ls != [] {
      GuardsMember(ls[..|ls| - 1], x);
    }
  }

  /** A guardrail survives assembly exactly if no layer with the same words has a higher precedence, or the same
      precedence and an earlier place. So a task layer is dropped only for an earlier task layer with the same words. */
  lemma GuardrailSurvivesIff(ls: seq<Layer>, total: int, caps: Caps, x: Layer)
    requires IsGuardrail(x)
    ensures x in Assemble(ls, total, caps).layers
            <==> exists m: nat :: m < |ls| && ls[m] == x && Best(ls, m, TOP)
    ensures x.kind.Task? ==>
      (x in Assemble(ls, total, caps).layers <==> exists m: nat :: FirstTask(ls, m) && ls[m] == x)
  {
    hide *;
    var ordered := Order(ls);
    var kept := Dedupe(ordered);
    var final := Truncate(kept, total, caps).kept;
    AssembleIs(ls, total, caps);
    OrderIsStableSort(ls);
    DedupeKeeps(ordered);
    OrderOfSorted(kept);
    TruncateKeepsGuardrails(kept, total, caps);
    GuardsMember(final, x);
    GuardsMember(kept, x);
    SurvivesIffBest(ls, x);
    if x.kind.Task? {
      TaskIsBestIff(ls, x);
    }
  }

  /** Guardrails are not always kept: one with the words of a layer of higher precedence is dropped. */
  lemma OutrankedGuardrailIsDropped(ls: seq<Layer>, total: int, caps: Caps, i: nat, j: nat)
    requires i < |ls| && j < |ls| && IsGuardrail(ls[i])
    requires ls[i].content == ls[j].content && Rank(ls[i].kind) < Rank(ls[j].kind)
    ensures ls[i] !in Assemble(ls, total, caps).layers
  {
    hide Assemble, Digest, Rank, IsGuardrail;
    GuardrailSurvivesIff(ls, total, caps, ls[i]);
    SameWords(ls[i], ls[j]);
    forall m: nat | m < |ls| && ls[m] == ls[i] ensures !Best(ls, m, TOP) {
      RankBound(ls[j].kind);
    }
  }

  lemma RankBound(kind: LayerType)
    ensures Rank(kind) <= TOP
  {
  }

  /** A guardrail of the global layer with the words of a user layer. */
  lemma DuplicateGuardrailIsDropped(total: int, caps: Caps)
    ensures var user, guard := Layer(User, "", false, "x", 1), Layer(Global, "", true, "x", 1);
      IsGuardrail(guard) && guard !in Assemble([user, guard], total, caps).layers
  {
    var user, guard := Layer(User, "", false, "x", 1), Layer(Global, "", true, "x", 1);
    hide Assemble;
    OutrankedGuardrailIsDropped([user, guard], total, caps, 1, 0);
  }

  lemma SameWords(a: Layer, b: Layer)
    requires a.content == b.content
    ensures Digest(a) == Digest(b)
  {
    hide Split, Join, Lower;
  }
}
