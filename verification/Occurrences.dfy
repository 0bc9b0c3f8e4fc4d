/** Which occurrence of the constant is chosen: the matching operand slots are counted in
    program order and, within an instruction, in operand order. */
module Occurrences {
  import opened Options
  import opened IR
  import opened FlowRules
  import opened SeedSteps

  /** `at` are the positions of the matching operands from `n` on, ascending. */
  ghost predicate ArePositions(cfg: Config, ops: seq<Value>, n: nat, at: seq<nat>) {
    && (forall k :: 0 <= k < |at| ==> n <= at[k] < |ops| && Matches(cfg, ops[at[k]]))
    && (forall k, l :: 0 <= k < l < |at| ==> at[k] < at[l])
    && (forall i :: n <= i < |ops| && Matches(cfg, ops[i]) ==> i in at)
  }

  ghost predicate AreSlotsAt(u: Value, ops: seq<Value>, slots: seq<Slot>, at: seq<nat>)
    requires forall k :: 0 <= k < |at| ==> at[k] < |ops|
  {
    |slots| == |at| && forall k :: 0 <= k < |at| ==> slots[k] == Slot(u, ops[at[k]])
  }

  /** The slots of the operands from position `n` on are those of all matching ones, once each
      and in order. */
  lemma {:induction false} SlotsOfInstruction(cfg: Config, u: Value, ops: seq<Value>, n: nat) returns (at: seq<nat>)
    requires n <= |ops|
    ensures ArePositions(cfg, ops, n, at) && AreSlotsAt(u, ops, SlotsIn(cfg, u, ops[n..]), at)
    decreases |ops| - n
  {
    hide Matches;
    if n == |ops| {
      at := [];
    } else {
      assert ops[n..][1..] == ops[n + 1..] && ops[n..][0] == ops[n];
      at := SlotsOfInstruction(cfg, u, ops, n + 1);
      var rest := SlotsIn(cfg, u, ops[n + 1..]);
      assert SlotsIn(cfg, u, ops[n..]) == (if Matches(cfg, ops[n]) then [Slot(u, ops[n])] else []) + rest;
      hide SlotsIn;
      if Matches(cfg, ops[n]) {
        OneMorePosition(cfg, u, ops, n, rest, at);
        at := [n] + at;
      }
    }
  }

  lemma OneMorePosition(cfg: Config, u: Value, ops: seq<Value>, n: nat, slots: seq<Slot>, at: seq<nat>)
    requires n < |ops| && Matches(cfg, ops[n]) && ArePositions(cfg, ops, n + 1, at) && AreSlotsAt(u, ops, slots, at)
    ensures ArePositions(cfg, ops, n, [n] + at) && AreSlotsAt(u, ops, [Slot(u, ops[n])] + slots, [n] + at)
  {
    hide Matches;
    var more := [n] + at;
    assert more[0] == n && forall k :: 0 < k < |more| ==> more[k] == at[k - 1];
    assert forall i :: i in more <==> i == n || i in at;
  }

  lemma {:induction false} SlotsOverHas(m: Module, cfg: Config, us: seq<Value>, slot: Slot)
    requires forall u :: u in us ==> IsInst(m, u)
    ensures slot in SlotsOver(m, cfg, us) <==> slot.inst in us && SlotOk(m, cfg, slot)
  {
    if us != [] {
      assert us == [us[0]] + us[1..];
      SlotsOverHas(m, cfg, us[1..], slot);
      if slot.inst == us[0] && SlotOk(m, cfg, slot) {
        var ops := Ops(At(m, us[0]));
        assert ops[0..] == ops;
        var at := SlotsOfInstruction(cfg, us[0], ops, 0);
        var i :| 0 <= i < |ops| && ops[i] == slot.const_;
        var k :| 0 <= k < |at| && at[k] == i;
        assert SlotsIn(cfg, us[0], ops)[k] == slot;
      } else if slot in SlotsOver(m, cfg, us) {
        SlotsOverAre(m, cfg, us, slot);
        if slot in SlotsIn(cfg, us[0], Ops(At(m, us[0]))) { SlotsInAre(cfg, us[0], Ops(At(m, us[0])), slot); }
      }
    }
  }

  ghost predicate InOrder(slots: seq<Slot>) {
    forall i, j :: 0 <= i <= j < |slots| ==> NotAfter(slots[i].inst, slots[j].inst)
  }

  lemma OrderedConcat(s: seq<Slot>, t: seq<Slot>)
    requires InOrder(s) && InOrder(t) && forall x, y :: x in s && y in t ==> NotAfter(x.inst, y.inst)
    ensures InOrder(s + t)
  {
    hide NotAfter;
    forall i, j | 0 <= i <= j < |s + t| ensures NotAfter((s + t)[i].inst, (s + t)[j].inst) {
      if i < |s| <= j { assert s[i] in s && t[j - |s|] in t; }
    }
  }

  lemma {:induction false} SlotsOverSorted(m: Module, cfg: Config, us: seq<Value>)
    requires (forall u :: u in us ==> IsInst(m, u)) && Sorted(us)
    ensures InOrder(SlotsOver(m, cfg, us))
  {
    if us != [] {
      var here := if InScope(m, cfg, us[0]) then SlotsIn(cfg, us[0], Ops(At(m, us[0]))) else [];
      var rest := SlotsOver(m, cfg, us[1..]);
      assert SlotsOver(m, cfg, us) == here + rest && us[0] in us;
      hide SlotsIn, SlotOk;
      forall x | x in here ensures x.inst == us[0] { SlotsInAre(cfg, us[0], Ops(At(m, us[0])), x); }
      assert InOrder(here) by { assert NotAfter(us[0], us[0]); }
      SlotsOverSorted(m, cfg, us[1..]);
      forall x, y | x in here && y in rest ensures NotAfter(x.inst, y.inst) {
        SlotsOverHas(m, cfg, us[1..], y);
        var k :| 0 <= k < |us[1..]| && us[1..][k] == y.inst;
        assert NotAfter(us[0], us[k + 1]);
      }
      OrderedConcat(here, rest);
    }
  }

  /** The slots counted are exactly the operands in scope that match, in program order. */
  lemma SlotsAreCounted(m: Module, cfg: Config)
    ensures forall slot :: slot in Slots(m, cfg) <==> SlotOk(m, cfg, slot)
    ensures InOrder(Slots(m, cfg))
  {
    hide SlotOk;
    var order := ProgramOrder(m);
    forall u ensures u in order <==> IsInst(m, u) { ProgramOrderHas(m, u); }
    ProgramOrderSorted(m);
    SlotsAre(m, cfg);
    forall slot ensures slot in Slots(m, cfg) <==> SlotOk(m, cfg, slot) {
      SlotsOverHas(m, cfg, order, slot);
      assert SlotOk(m, cfg, slot) ==> IsInst(m, slot.inst) by { SlotIsInstruction(m, cfg, slot); }
    }
    SlotsOverSorted(m, cfg, order);
  }

  lemma SlotIsInstruction(m: Module, cfg: Config, slot: Slot)
    ensures SlotOk(m, cfg, slot) ==> IsInst(m, slot.inst)
  {
  }

  /** Occurrence 0 chooses all slots; occurrence k chooses the one with k - 1 before it, and
      none when there are fewer. */
  lemma OccurrenceIsChosen(m: Module, cfg: Config)
    ensures cfg.occurrence == 0 ==> Chosen(m, cfg) == Slots(m, cfg)
    ensures 0 < cfg.occurrence <= |Slots(m, cfg)| ==> exists before, slot, after ::
      Slots(m, cfg) == before + [slot] + after && |before| + 1 == cfg.occurrence && Chosen(m, cfg) == [slot]
    ensures cfg.occurrence > |Slots(m, cfg)| ==> Chosen(m, cfg) == []
  {
    hide Slots;
    var slots, k := Slots(m, cfg), cfg.occurrence;
    if 0 < k <= |slots| {
      assert slots == slots[..k - 1] + [slots[k - 1]] + slots[k..];
    }
  }
}
