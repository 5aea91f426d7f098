/** What assembling a context makes of its layers and reports, in terms of their words, tokens and types. */
module ContextResults {
  import opened Common
  import opened Text
  import opened ContextAssembly
  import opened ContextBudget

  // ---------------------------------------------------------------------------------------------
  // Order and duplicates
  // ---------------------------------------------------------------------------------------------

  /** The layer types, those of higher precedence first. */
  const PRECEDENCE: seq<LayerType> := [Task, User, Project, Global, Research, Retrieved]

  /** In the order of assembly no layer comes before one of a type of higher precedence. */
  lemma OrderFollowsPrecedence(ls: seq<Layer>, i: nat, j: nat) returns (m: nat, n: nat)
    requires i < j < |Order(ls)|
    ensures m <= n < |PRECEDENCE| && PRECEDENCE[m] == Order(ls)[i].kind && PRECEDENCE[n] == Order(ls)[j].kind
  {
    OrderIsStableSort(ls);
    hide Order;
    m, n := 5 - Rank(Order(ls)[i].kind), 5 - Rank(Order(ls)[j].kind);
  }

  function LowerAll(words: seq<string>): (r: seq<string>)
    ensures |r| == |words| && forall i :: 0 <= i < |r| ==> r[i] == Lower(words[i])
  {
    if words == [] then [] else LowerAll(words[..|words| - 1]) + [Lower(words[|words| - 1])]
  }

  /** Only the letters A to Z have a lower case. */
  lemma LettersLowered(c: char)
    ensures LowerChar(c) as int == if 65 <= c as int <= 90 then c as int + 32 else c as int
  {
  }

  lemma LowerConcat(a: string, b: string)
    ensures Lower(a + b) == Lower(a) + Lower(b)
  {
    hide Lower;
  }

  lemma LowerWord(w: string)
    requires IsWord(w)
    ensures IsWord(Lower(w))
  {
    forall c: char ensures IsSpace(LowerChar(c)) == IsSpace(c) {}
    hide IsSpace, LowerChar, Lower;
  }

  lemma {:induction false} LowerOfJoin(words: seq<string>)
    requires words != []
    ensures Lower(Join(words)) == Join(LowerAll(words))
  {
    hide Lower, LowerChar;
    var init, last := words[..|words| - 1], words[|words| - 1];
    if init == [] {
      assert words == [last] && LowerAll(words) == [Lower(last)];
    } else {
      LowerOfJoin(init);
      assert words == init + [last] && LowerAll(words) == LowerAll(init) + [Lower(last)];
      JoinConcat(init, [last]);
      JoinConcat(LowerAll(init), [Lower(last)]);
      LowerConcat(Join(init), " " + last);
      LowerConcat(" ", last);
      assert Lower(" ") == " " by { LowerBlank(); }
      assert Join(init) + " " + last == Join(init) + (" " + last);
      assert Lower(Join(init)) + " " + Lower(last) == Lower(Join(init)) + (" " + Lower(last));
    }
  }

  lemma LowerBlank()
    ensures Lower(" ") == " "
  {
  }

  lemma {:induction false} WordsOfDigest(l: Layer)
    ensures Split(Digest(l)) == LowerAll(Split(l.content))
  {
    var words := Split(l.content);
    hide Split, Lower, IsWord;
    if words == [] {
      assert Join(words) == "" && Lower("") == "";
      SplitOfJoin([]);
      assert LowerAll([]) == [];
    } else {
      LowerOfJoin(words);
      forall w | w in LowerAll(words) ensures IsWord(w) {
        var i :| 0 <= i < |words| && w == Lower(words[i]);
        assert words[i] in words;
        LowerWord(words[i]);
      }
      SplitOfJoin(LowerAll(words));
    }
  }

  /** Two layers count as duplicates exactly if they have the same words in the same order, apart from case; white space
      and everything else about them does not matter. */
  lemma DuplicatesIff(a: Layer, b: Layer)
    ensures Digest(a) == Digest(b) <==> LowerAll(Split(a.content)) == LowerAll(Split(b.content))
  {
    WordsOfDigest(a);
    WordsOfDigest(b);
    DigestIs(a);
    DigestIs(b);
    hide Digest, Split, LowerAll;
  }

  lemma {:induction false} DigestIs(l: Layer)
    ensures Digest(l) == Join(LowerAll(Split(l.content)))
  {
    var words := Split(l.content);
    hide Split, Lower;
    if words == [] {
      assert LowerAll([]) == [] && Join([]) == "" && Lower("") == "";
    } else {
      LowerOfJoin(words);
    }
  }

  // ---------------------------------------------------------------------------------------------
  // Caps and budget
  // ---------------------------------------------------------------------------------------------

  /** A layer is cut to its cap exactly if the type has one, the layer is neither a task nor marked as a guardrail, and
      it has more tokens than that; then it keeps its first words. */
  lemma CapCutsIff(ls: seq<Layer>, caps: Caps, i: nat)
    requires i < |ls|
    ensures var l, cap, r := ls[i], caps(ls[i].kind), CapAll(ls, caps)[i];
      if cap != 0 && !l.guardrail && !l.kind.Task? && l.tokens > cap then FirstWords(r, l, if cap < 0 then 0 else cap)
      else r == l
  {
    CapAllAt(ls, caps, i);
    CutKeepsFirstWords(ls[i], caps(ls[i].kind));
    hide Cut, FirstWords, CapAll;
  }

  /** Without caps of the caller's, research layers are cut to 1500 tokens, global, project and user layers to 4000. */
  lemma DefaultCapsCut(ls: seq<Layer>, i: nat)
    requires i < |ls|
    ensures var l, r := ls[i], CapAll(ls, DefaultCap)[i];
      if l.guardrail || l.kind.Task? || l.kind.Retrieved? then r == l
      else if l.kind.Research? then if l.tokens > 1500 then FirstWords(r, l, 1500) else r == l
      else if l.tokens > 4000 then FirstWords(r, l, 4000) else r == l
  {
    CapCutsIff(ls, DefaultCap, i);
    hide CapAll, FirstWords;
  }

  /** What guardrails cost comes off the budget first. What is left is spent on the capped layers, in order; the cuts
      for the caps are reported before what that does. */
  lemma TruncateSpends(ls: seq<Layer>, total: int, caps: Caps)
    ensures var capped := CapAll(Order(ls), caps);
      var guards := Sum(Guards(Order(ls)));
      var f, fitted := Truncate(ls, total, caps), Fit(capped, if total > guards then total - guards else 0);
      f.kept == fitted.kept && f.left == fitted.left && f.entries == CapEntries(Order(ls), caps) + fitted.entries
  {
    var ordered := Order(ls);
    CapsKeepGuards(ordered, caps);
    GuardTokensOfGuards(CapAll(ordered, caps));
    GuardTokensOfGuards(ordered);
    GuardsSum(ordered);
    hide Fit, CapAll, Guards, GuardTokens, Order, CapEntries;
  }

  lemma {:induction false} GuardsSum(ls: seq<Layer>)
    ensures GuardTokens(ls) == Sum(Guards(ls))
  {
    hide IsGuardrail;
    if ls != [] {
      GuardsSum(ls[..|ls| - 1]);
      SumSnoc(Guards(ls[..|ls| - 1]), ls[|ls| - 1]);
    }
  }

  lemma SumSnoc(ls: seq<Layer>, l: Layer)
    ensures Sum(ls + [l]) == Sum(ls) + l.tokens
  {
    assert (ls + [l])[..|ls|] == ls;
  }

  // ---------------------------------------------------------------------------------------------
  // The audit
  // ---------------------------------------------------------------------------------------------

  /** The tokens that the entries report as gone. */
  function Loss(entries: seq<Entry>): int {
    if entries == [] then 0
    else Loss(entries[..|entries| - 1]) + entries[|entries| - 1].before - entries[|entries| - 1].after
  }

  lemma LossSnoc(entries: seq<Entry>, e: Entry)
    ensures Loss(entries + [e]) == Loss(entries) + e.before - e.after
  {
    assert (entries + [e])[..|entries|] == entries;
  }

  lemma {:induction false} LossConcat(a: seq<Entry>, b: seq<Entry>)
    ensures Loss(a + b) == Loss(a) + Loss(b)
  {
    if b == [] {
      assert a + b == a;
    } else {
      var init, e := b[..|b| - 1], b[|b| - 1];
      assert a + b == (a + init) + [e] && b == init + [e];
      LossConcat(a, init);
      LossSnoc(a + init, e);
      LossSnoc(init, e);
    }
  }

  lemma {:induction false} SumConcat(a: seq<Layer>, b: seq<Layer>)
    ensures Sum(a + b) == Sum(a) + Sum(b)
  {
    if b == [] {
      assert a + b == a;
    } else {
      var init, l := b[..|b| - 1], b[|b| - 1];
      assert a + b == (a + init) + [l] && b == init + [l];
      SumConcat(a, init);
      SumSnoc(a + init, l);
      SumSnoc(init, l);
    }
  }

  /** The tokens of the layers of rank `top` and below. */
  function SumUpTo(ls: seq<Layer>, top: nat): nat {
    if ls == [] then 0
    else SumUpTo(ls[..|ls| - 1], top) + if Rank(ls[|ls| - 1].kind) <= top then ls[|ls| - 1].tokens else 0
  }

  lemma {:induction false} SumUpToStep(ls: seq<Layer>, top: nat)
    ensures SumUpTo(ls, top) == Sum(OfRank(ls, top)) + if top > 0 then SumUpTo(ls, top - 1) else 0
  {
    hide Rank;
    if ls != [] {
      var init, l := ls[..|ls| - 1], ls[|ls| - 1];
      SumUpToStep(init, top);
      SumSnoc(OfRank(init, top), l);
    }
  }

  lemma {:induction false} SumOfOrderFrom(ls: seq<Layer>, top: nat)
    ensures Sum(OrderFrom(ls, top)) == SumUpTo(ls, top)
  {
    hide *;
    OrderFromStep(ls, top);
    SumUpToStep(ls, top);
    if top > 0 {
      SumOfOrderFrom(ls, top - 1);
      SumConcat(OfRank(ls, top), OrderFrom(ls, top - 1));
    } else {
      assert OfRank(ls, top) + [] == OfRank(ls, top);
    }
  }

  lemma {:induction false} SumUpToAll(ls: seq<Layer>)
    ensures SumUpTo(ls, TOP) == Sum(ls)
  {
    hide Rank;
    if ls != [] {
      SumUpToAll(ls[..|ls| - 1]);
    }
  }

  lemma OrderKeepsSum(ls: seq<Layer>)
    ensures Sum(Order(ls)) == Sum(ls)
  {
    SumOfOrderFrom(ls, TOP);
    SumUpToAll(ls);
    hide OrderFrom, SumUpTo, Sum;
  }

  lemma {:induction false} DedupeBalances(ls: seq<Layer>)
    ensures Sum(ls) == Sum(Dedupe(ls)) + Loss(DuplicateEntries(ls))
  {
    hide Digest, Seen;
    if ls != [] {
      var init, l := ls[..|ls| - 1], ls[|ls| - 1];
      DedupeBalances(init);
      SumSnoc(Dedupe(init), l);
      LossSnoc(DuplicateEntries(init), EntryFor(DroppedDuplicate, l, l.tokens, 0));
    }
  }

  lemma {:induction false} CapsBalance(ls: seq<Layer>, caps: Caps)
    ensures Sum(ls) == Sum(CapAll(ls, caps)) + Loss(CapEntries(ls, caps))
  {
    hide OverCap, Cut;
    if ls != [] {
      var init, l := ls[..|ls| - 1], ls[|ls| - 1];
      CapsBalance(init, caps);
      SumSnoc(CapAll(init, caps), CapOne(l, caps));
      LossSnoc(CapEntries(init, caps), EntryFor(Truncated, l, l.tokens, CapOne(l, caps).tokens));
    }
  }

  lemma FitOneBalances(f: Fitted, l: Layer)
    ensures var g := FitOne(f, l); Sum(f.kept) + l.tokens + Loss(f.entries) == Sum(g.kept) + Loss(g.entries)
  {
    hide IsGuardrail, Cut, Sum, Loss;
    SumSnoc(f.kept, l);
    SumSnoc(f.kept, Cut(l, f.left));
    LossSnoc(f.entries, EntryFor(Truncated, l, l.tokens, Cut(l, f.left).tokens));
    LossSnoc(f.entries, EntryFor(Dropped, l, l.tokens, 0));
  }

  lemma {:induction false} FitBalances(ls: seq<Layer>, left: nat)
    ensures Sum(ls) == Sum(Fit(ls, left).kept) + Loss(Fit(ls, left).entries)
  {
    if ls != [] {
      hide FitOne;
      FitBalances(ls[..|ls| - 1], left);
      FitOneBalances(Fit(ls[..|ls| - 1], left), ls[|ls| - 1]);
    }
  }

  lemma {:induction false} AddedBalances(ls: seq<Layer>)
    ensures Loss(AddedEntries(ls)) == 0 && |AddedEntries(ls)| == |ls|
  {
    hide Loss;
    if ls != [] {
      var init, l := ls[..|ls| - 1], ls[|ls| - 1];
      AddedBalances(init);
      LossSnoc(AddedEntries(init), EntryFor(Added, l, l.tokens, l.tokens));
    } else {
      NoLoss();
    }
  }

  lemma NoLoss()
    ensures Loss([]) == 0
  {
  }

  /** Every layer that is not a duplicate is reported as added, in order. */
  lemma {:induction false} AddedReported(ls: seq<Layer>, i: nat)
    requires i < |ls|
    ensures |AddedEntries(ls)| == |ls|
    ensures AddedEntries(ls)[i] == Entry(Added, ls[i].kind, ls[i].source, ls[i].tokens, ls[i].tokens)
  {
    AddedBalances(ls[..|ls| - 1]);
    if i < |ls| - 1 {
      AddedReported(ls[..|ls| - 1], i);
    }
  }

  lemma TruncateBalances(ls: seq<Layer>, total: int, caps: Caps)
    ensures var f := Truncate(ls, total, caps); Sum(ls) == Sum(f.kept) + Loss(f.entries)
  {
    hide Fit, CapAll, CapEntries, Order, Sum, Loss, GuardTokens;
    var ordered := Order(ls);
    var capped := CapAll(ordered, caps);
    OrderKeepsSum(ls);
    CapsBalance(ordered, caps);
    FitBalances(capped, Budget(capped, total));
    LossConcat(CapEntries(ordered, caps), Fit(capped, Budget(capped, total)).entries);
  }

  /** The audit accounts for every token: those of the layers given are those of the result and those that the entries
      report as gone. */
  lemma AuditBalances(ls: seq<Layer>, total: int, caps: Caps)
    ensures var r := Assemble(ls, total, caps); Sum(ls) == r.tokens + Loss(r.audit) && r.tokens == Sum(r.layers)
  {
    hide Order, Dedupe, Truncate, DuplicateEntries, AddedEntries, Sum, Loss;
    var ordered := Order(ls);
    var kept := Dedupe(ordered);
    var duplicates, added := DuplicateEntries(ordered), AddedEntries(kept);
    OrderKeepsSum(ls);
    DedupeBalances(ordered);
    AddedBalances(kept);
    TruncateBalances(kept, total, caps);
    LossConcat(duplicates, added);
    LossConcat(duplicates + added, Truncate(kept, total, caps).entries);
  }

  /** There is a layer with the digest of layer `i` before it. */
  ghost predicate Repeats(ls: seq<Layer>, i: nat) {
    i < |ls| && exists j :: 0 <= j < i && Digest(ls[j]) == Digest(ls[i])
  }

  lemma RepeatsSnoc(init: seq<Layer>, l: Layer, i: nat)
    ensures if i < |init| then Repeats(init + [l], i) <==> Repeats(init, i)
            else Repeats(init + [l], i) <==> i == |init| && Seen(init, Digest(l))
  {
    SeenIff(init, Digest(l));
    hide Digest, Seen;
    var ls := init + [l];
    assert forall j :: 0 <= j < |init| ==> ls[j] == init[j];
  }

  /** `e` reports layer `i` as a duplicate. */
  ghost predicate Reports(e: Entry, ls: seq<Layer>, i: nat) {
    i < |ls| && Repeats(ls, i) && e == Entry(DroppedDuplicate, ls[i].kind, ls[i].source, ls[i].tokens, 0)
  }

  lemma ReportsSnoc(e: Entry, init: seq<Layer>, l: Layer, i: nat)
    ensures if i < |init| then Reports(e, init + [l], i) <==> Reports(e, init, i)
            else Reports(e, init + [l], i) <==>
              i == |init| && Seen(init, Digest(l)) && e == Entry(DroppedDuplicate, l.kind, l.source, l.tokens, 0)
  {
    RepeatsSnoc(init, l, i);
    hide Repeats, Seen, Digest;
  }

  /** The duplicates reported are the layers with the words of an earlier one; all their tokens are gone. */
  lemma {:induction false} DuplicatesReported(ls: seq<Layer>, e: Entry)
    ensures e in DuplicateEntries(ls) <==> exists i: nat :: Reports(e, ls, i)
  {
    hide Digest, Seen, Reports;
    if ls == [] {
      forall i: nat ensures !Reports(e, ls, i) { NoReports(e, ls, i); }
    } else {
      var init, l := ls[..|ls| - 1], ls[|ls| - 1];
      assert ls == init + [l];
      DuplicatesReported(init, e);
      ReportsSnoc(e, init, l, |init|);
      forall i: nat ensures Reports(e, ls, i) && i != |init| <==> Reports(e, init, i) {
        ReportsSnoc(e, init, l, i);
        NoReports(e, init, i);
      }
    }
  }

  lemma NoReports(e: Entry, ls: seq<Layer>, i: nat)
    ensures Reports(e, ls, i) ==> i < |ls|
  {
  }

  /** The cuts reported for the caps are those that were made, with the tokens before and after. */
  lemma {:induction false} CapsReported(ls: seq<Layer>, caps: Caps, e: Entry)
    ensures e in CapEntries(ls, caps)
            <==> exists i: nat :: i < |ls| && OverCap(ls[i], caps)
                   && e == Entry(Truncated, ls[i].kind, ls[i].source, ls[i].tokens, CapAll(ls, caps)[i].tokens)
  {
    hide OverCap, CapOne;
    if ls != [] {
      var init, l := ls[..|ls| - 1], ls[|ls| - 1];
      CapsReported(init, caps, e);
      forall i: nat | i < |init| ensures CapAll(ls, caps)[i] == CapAll(init, caps)[i] && ls[i] == init[i] {}
      assert CapAll(ls, caps)[|init|] == CapOne(l, caps);
      if e in CapEntries(init, caps) {
        var i: nat :| i < |init| && OverCap(init[i], caps)
          && e == Entry(Truncated, init[i].kind, init[i].source, init[i].tokens, CapAll(init, caps)[i].tokens);
        assert ls[i] == init[i];
      } else if e in CapEntries(ls, caps) {
        assert OverCap(ls[|init|], caps);
      }
    }
  }

  /** A layer is over its cap. */
  lemma OverCapIff(l: Layer, caps: Caps)
    ensures OverCap(l, caps) <==> caps(l.kind) != 0 && !l.guardrail && !l.kind.Task? && l.tokens > caps(l.kind)
  {
  }

  lemma {:induction false} FitReports(ls: seq<Layer>, left: nat)
    ensures Fit(ls, left).truncated <==> Fit(ls, left).entries != []
  {
    if ls != [] {
      hide Cut, IsGuardrail;
      FitReports(ls[..|ls| - 1], left);
    }
  }

  /** A result is marked truncated exactly if a layer was cut or dropped for a cap or the budget. */
  lemma TruncatedIff(ls: seq<Layer>, total: int, caps: Caps)
    ensures var r := Assemble(ls, total, caps);
      r.truncated <==> CountOf(r.audit, Truncated) + CountOf(r.audit, Dropped) > 0
  {
    hide *;
    var kept := Dedupe(Order(ls));
    AssembledAuditCounts(ls, total, caps, Truncated);
    AssembledAuditCounts(ls, total, caps, Dropped);
    TruncateReports(kept, total, caps);
    AssembleFlag(ls, total, caps);
  }

  lemma AssembleFlag(ls: seq<Layer>, total: int, caps: Caps)
    ensures Assemble(ls, total, caps).truncated == Truncate(Dedupe(Order(ls)), total, caps).truncated
  {
    hide Order, Dedupe, Truncate, DuplicateEntries, AddedEntries, Sum;
  }

  lemma {:induction false} FitActions(ls: seq<Layer>, left: nat)
    ensures forall e :: e in Fit(ls, left).entries ==> e.action == Truncated || e.action == Dropped
  {
    if ls != [] {
      hide Cut, IsGuardrail;
      FitActions(ls[..|ls| - 1], left);
    }
  }

  lemma {:induction false} CountsAll(entries: seq<Entry>)
    requires forall e :: e in entries ==> e.action == Truncated || e.action == Dropped
    ensures CountOf(entries, Truncated) + CountOf(entries, Dropped) == |entries|
  {
    if entries != [] {
      assert entries[|entries| - 1] in entries;
      CountsAll(entries[..|entries| - 1]);
    }
  }

  lemma TruncateReports(ls: seq<Layer>, total: int, caps: Caps)
    ensures var f := Truncate(ls, total, caps);
      f.truncated <==> CountOf(f.entries, Truncated) + CountOf(f.entries, Dropped) > 0
  {
    hide Fit, CapAll, CapEntries, Order, CountOf, GuardTokens;
    var ordered := Order(ls);
    var capped := CapAll(ordered, caps);
    FitReports(capped, Budget(capped, total));
    FitActions(capped, Budget(capped, total));
    CapEntriesAre(ordered, caps);
    CountsAll(Truncate(ls, total, caps).entries);
  }

  /** Each further layer adds its entry, or none, at the end of the duplicates and of the cuts. */
  lemma ReportedInTurn(ls: seq<Layer>, l: Layer, caps: Caps)
    ensures DuplicateEntries(ls + [l]) == DuplicateEntries(ls) +
      if exists j :: 0 <= j < |ls| && Digest(ls[j]) == Digest(l)
        then [Entry(DroppedDuplicate, l.kind, l.source, l.tokens, 0)] else []
    ensures CapEntries(ls + [l], caps) == CapEntries(ls, caps) +
      if OverCap(l, caps) then [Entry(Truncated, l.kind, l.source, l.tokens, CapAll([l], caps)[0].tokens)] else []
  {
    SeenIff(ls, Digest(l));
    hide Digest, Seen, OverCap, Cut;
    assert (ls + [l])[..|ls|] == ls && [l][..0] == [];
  }

  /** Duplicates are reported first, then what is added, then what is cut or dropped. */
  function Phase(a: Action): nat {
    match a
    case DroppedDuplicate => 0
    case Added => 1
    case _ => 2
  }

  ghost predicate InPhase(entries: seq<Entry>, phase: nat) {
    forall i :: 0 <= i < |entries| ==> Phase(entries[i].action) == phase
  }

  lemma {:induction false} DuplicatesFirst(ls: seq<Layer>)
    ensures InPhase(DuplicateEntries(ls), 0) && InPhase(AddedEntries(ls), 1)
  {
    hide Digest, Seen;
    if ls != [] {
      DuplicatesFirst(ls[..|ls| - 1]);
    }
  }

  lemma CutsLast(ls: seq<Layer>, total: int, caps: Caps)
    ensures InPhase(Truncate(ls, total, caps).entries, 2)
  {
    hide Fit, CapAll, CapEntries, Order, GuardTokens;
    var ordered := Order(ls);
    var capped := CapAll(ordered, caps);
    FitActions(capped, Budget(capped, total));
    CapEntriesAre(ordered, caps);
    var entries := Truncate(ls, total, caps).entries;
    forall i | 0 <= i < |entries| ensures Phase(entries[i].action) == 2 {
      assert entries[i] in CapEntries(ordered, caps) || entries[i] in Fit(capped, Budget(capped, total)).entries;
    }
  }

  lemma AuditInPhases(ls: seq<Layer>, total: int, caps: Caps, i: nat, j: nat)
    requires i <= j < |Assemble(ls, total, caps).audit|
    ensures Phase(Assemble(ls, total, caps).audit[i].action) <= Phase(Assemble(ls, total, caps).audit[j].action)
  {
    hide Order, Dedupe, Truncate, DuplicateEntries, AddedEntries, Sum, Phase;
    DuplicatesFirst(Order(ls));
    DuplicatesFirst(Dedupe(Order(ls)));
    CutsLast(Dedupe(Order(ls)), total, caps);
  }
}
