/** Which struct fields an address goes through: the constant last indices of the
    getelementptr chain behind it, outermost struct first. */
module StructFields {
  import opened Options
  import opened IR
  import opened PointerOrigin
  import opened Reachability

  /** The field a getelementptr selects: its last index, when there are at least two and
      the last one is a constant. */
  function FieldOf(i: Instr): Option<int>
    requires i.Gep?
  {
    var n := |i.indices|;
    if n >= 2 && i.indices[n - 1].IntConst? then Some(i.indices[n - 1].c) else None
  }

  ghost function Fields(m: Module, v: Value, visited: set<Value>): (r: (seq<int>, set<Value>))
    requires WellFormed(m) && v in Universe(m)
    ensures visited <= r.1
    decreases Universe(m) - visited, 0
  {
    if v in visited then ([], visited) else
      var now := visited + {v};
      match At(m, v)
      case Gep(base, _) =>
        OperandInUniverse(m, v, base);
        var inner := Fields(m, base, now);
        var own := FieldOf(At(m, v));
        (if own.Some? then inner.0 + [own.value] else inner.0, inner.1)
      case Load(ptr) =>
        OperandInUniverse(m, v, ptr);
        if At(m, ptr).Alloca? then StoredFields(m, UseList(m, ptr), now) else Fields(m, ptr, now)
      case _ => ([], now)
  }

  ghost function StoredFields(m: Module, us: seq<Value>, visited: set<Value>): (r: (seq<int>, set<Value>))
    requires WellFormed(m)
    ensures visited <= r.1
    decreases Universe(m) - visited, |us| + 1
  {
    if us == [] then ([], visited)
    else if !At(m, us[0]).Store? then StoredFields(m, us[1..], visited)
    else
      OperandInUniverse(m, us[0], At(m, us[0]).val);
      var first := Fields(m, Strip(m, At(m, us[0]).val), visited);
      if first.0 != [] then first else StoredFields(m, us[1..], first.1)
  }

  ghost function FieldIndices(m: Module, v: Value): seq<int> {
    if WellFormed(m) && v in Universe(m) then Fields(m, v, {}).0 else []
  }

  // ----- where the indices come from -----

  /** One step from an address to what it is computed or loaded from. Casts are stripped
      from stored values only, so that no getelementptr is lost. */
  ghost predicate AddressFrom(m: Module, v: Value, w: Value) {
    match At(m, v)
    case Gep(base, _) => w == base
    case Load(ptr) =>
      if At(m, ptr).Alloca? then exists u :: u in UseList(m, ptr) && At(m, u).Store? && w == Strip(m, At(m, u).val)
      else w == ptr
    case _ => false
  }

  ghost function AddressChain(m: Module): (Value, Value) -> bool { (v, w) => AddressFrom(m, v, w) }

  /** Index `i` is the field of some getelementptr that address `v` goes through. */
  ghost predicate FieldBehind(m: Module, v: Value, i: int) {
    exists g :: Reached(AddressChain(m), Only(v), g) && At(m, g).Gep? && FieldOf(At(m, g)) == Some(i)
  }

  lemma FieldBehindStep(m: Module, v: Value, w: Value, i: int)
    requires FieldBehind(m, w, i) && AddressFrom(m, v, w)
    ensures FieldBehind(m, v, i)
  {
    var g :| Reached(AddressChain(m), Only(w), g) && At(m, g).Gep? && FieldOf(At(m, g)) == Some(i);
    var p :| Leads(AddressChain(m), Only(w), p, g);
    assert Leads(AddressChain(m), Only(v), [v] + p, g);
  }

  lemma {:induction false} FieldsAreBehind(m: Module, v: Value, visited: set<Value>, i: int)
    requires WellFormed(m) && v in Universe(m) && i in Fields(m, v, visited).0
    ensures FieldBehind(m, v, i)
    decreases Universe(m) - visited, 0
  {
    var now := visited + {v};
    match At(m, v)
    case Gep(base, _) =>
      OperandInUniverse(m, v, base);
      if FieldOf(At(m, v)) == Some(i) {
        ReachedStart(AddressChain(m), Only(v), v);
      } else {
        FieldsAreBehind(m, base, now, i);
        FieldBehindStep(m, v, base, i);
      }
    case Load(ptr) =>
      OperandInUniverse(m, v, ptr);
      if At(m, ptr).Alloca? {
        StoredFieldsAreBehind(m, v, UseList(m, ptr), now, i);
      } else {
        FieldsAreBehind(m, ptr, now, i);
        FieldBehindStep(m, v, ptr, i);
      }
    case _ =>
  }

  lemma {:induction false} StoredFieldsAreBehind(m: Module, v: Value, us: seq<Value>, visited: set<Value>, i: int)
    requires WellFormed(m) && i in StoredFields(m, us, visited).0
    requires forall u :: u in us && At(m, u).Store? ==> AddressFrom(m, v, Strip(m, At(m, u).val))
    ensures FieldBehind(m, v, i)
    decreases Universe(m) - visited, |us| + 1
  {
    if !At(m, us[0]).Store? {
      StoredFieldsAreBehind(m, v, us[1..], visited, i);
    } else {
      OperandInUniverse(m, us[0], At(m, us[0]).val);
      var stored := Strip(m, At(m, us[0]).val);
      if Fields(m, stored, visited).0 != [] {
        FieldsAreBehind(m, stored, visited, i);
        FieldBehindStep(m, v, stored, i);
      } else {
        StoredFieldsAreBehind(m, v, us[1..], Fields(m, stored, visited).1, i);
      }
    }
  }

  /** Every field index extracted belongs to a getelementptr the address goes through. */
  lemma FieldIndicesAreBehind(m: Module, v: Value, i: int)
    requires i in FieldIndices(m, v)
    ensures FieldBehind(m, v, i)
  {
    FieldsAreBehind(m, v, {}, i);
  }

  // ----- which indices, and in which order -----

  /** The one value an address is computed or loaded from, unless it is loaded from a local
      variable or is the end of its chain. */
  function Next(m: Module, v: Value): Option<Value> {
    match At(m, v)
    case Gep(base, _) => Some(base)
    case Load(ptr) => if At(m, ptr).Alloca? then None else Some(ptr)
    case _ => None
  }

  /** `p` is the whole chain of its first address, and no local variable is loaded in it. */
  ghost predicate IsChain(m: Module, p: seq<Value>) {
    && |p| > 0 && !At(m, p[|p| - 1]).Gep? && !At(m, p[|p| - 1]).Load?
    && forall i :: 0 <= i < |p| - 1 ==> Next(m, p[i]) == Some(p[i + 1])
  }

  /** The constant fields of a chain, the innermost address first read, outermost first. */
  function ChainFields(m: Module, p: seq<Value>): seq<int> {
    if p == [] then []
    else
      var i := At(m, p[0]);
      ChainFields(m, p[1..]) + if i.Gep? && FieldOf(i).Some? then [FieldOf(i).value] else []
  }

  /** A chain that ends visits no value twice. */
  lemma {:induction false} ChainIsSimple(m: Module, p: seq<Value>, i: nat, j: nat)
    requires IsChain(m, p) && i < j < |p|
    ensures p[i] != p[j]
    decreases |p| - j
  {
    hide At;
    assert Next(m, p[i]) == Some(p[i + 1]);
    if j < |p| - 1 { ChainIsSimple(m, p, i + 1, j + 1); }
  }

  /** Where a chain meets a value visited before, no field is left to find. */
  ghost predicate Unspoilt(m: Module, p: seq<Value>, visited: set<Value>) {
    forall i :: 0 <= i < |p| && p[i] in visited ==> ChainFields(m, p[i..]) == []
  }

  lemma {:induction false} FieldsOfChain(m: Module, p: seq<Value>, visited: set<Value>)
    requires WellFormed(m) && IsChain(m, p) && p[0] in Universe(m) && Unspoilt(m, p, visited)
    ensures Fields(m, p[0], visited).0 == ChainFields(m, p)
    ensures Fields(m, p[0], visited).1 <= visited + set i | 0 <= i < |p| :: p[i]
    decreases |p|
  {
    hide WellFormed, Universe;
    if p[0] in visited {
      assert p[0..] == p;
    } else if |p| > 1 {
      OperandInUniverse(m, p[0], p[1]);
      var now := visited + {p[0]};
      forall i | 0 <= i < |p[1..]| && p[1..][i] in now ensures ChainFields(m, p[1..][i..]) == [] {
        ChainIsSimple(m, p, 0, i + 1);
        assert p[1..][i..] == p[i + 1..];
      }
      FieldsOfChain(m, p[1..], now);
    }
  }

  /** For an address whose chain loads no local variable, the indices extracted are exactly
      the constant fields of its getelementptrs, outermost first. */
  lemma FieldIndicesOfChain(m: Module, p: seq<Value>)
    requires WellFormed(m) && IsChain(m, p) && p[0] in Universe(m)
    ensures FieldIndices(m, p[0]) == ChainFields(m, p)
  {
    FieldsOfChain(m, p, {});
  }

  /** `chains` are the chains of the values stored to a local variable, in the order of its
      use list. */
  ghost predicate AreChains(m: Module, us: seq<Value>, chains: seq<seq<Value>>) {
    && |chains| == |StoredValues(m, us)|
    && forall j :: 0 <= j < |chains| ==> IsChain(m, chains[j]) && chains[j][0] == StoredValues(m, us)[j]
  }

  /** The fields of the first chain that has any. */
  function FirstFields(m: Module, chains: seq<seq<Value>>): seq<int> {
    if chains == [] then []
    else if ChainFields(m, chains[0]) != [] then ChainFields(m, chains[0])
    else FirstFields(m, chains[1..])
  }

  /** Visited values are the ends of chains without fields, or no part of any chain. */
  ghost predicate FieldlessOnly(m: Module, visited: set<Value>) {
    forall p, i :: IsChain(m, p) && 0 <= i < |p| && p[i] in visited ==> ChainFields(m, p[i..]) == []
  }

  lemma {:induction false} ChainsAgree(m: Module, p: seq<Value>, q: seq<Value>)
    requires IsChain(m, p) && IsChain(m, q) && p[0] == q[0]
    ensures p == q
  {
    hide At;
    assert |p| > 1 ==> Next(m, p[0]) == Some(p[1]);
    assert |q| > 1 ==> Next(m, q[0]) == Some(q[1]);
    if |p| > 1 && |q| > 1 {
      ChainsAgree(m, p[1..], q[1..]);
      assert p == [p[0]] + p[1..] && q == [q[0]] + q[1..];
    }
  }

  lemma {:induction false} FieldlessSuffix(m: Module, p: seq<Value>, i: nat)
    requires IsChain(m, p) && ChainFields(m, p) == [] && i < |p|
    ensures IsChain(m, p[i..]) && ChainFields(m, p[i..]) == []
    decreases i
  {
    hide At;
    if i == 0 {
      assert p[0..] == p;
    } else {
      FieldlessSuffix(m, p[1..], i - 1);
      assert p[1..][i - 1..] == p[i..];
    }
  }

  lemma FieldlessMore(m: Module, visited: set<Value>, now: set<Value>, q: seq<Value>)
    requires FieldlessOnly(m, visited) && IsChain(m, q) && ChainFields(m, q) == []
    requires now <= visited + set i | 0 <= i < |q| :: q[i]
    ensures FieldlessOnly(m, now)
  {
    hide IsChain, ChainFields;
    forall p, i | IsChain(m, p) && 0 <= i < |p| && p[i] in now ensures ChainFields(m, p[i..]) == [] {
      if p[i] !in visited {
        var k :| 0 <= k < |q| && q[k] == p[i];
        FieldlessSuffix(m, q, k);
        SuffixIsChain(m, p, i);
        ChainsAgree(m, p[i..], q[k..]);
      }
    }
  }

  lemma SuffixIsChain(m: Module, p: seq<Value>, i: nat)
    requires IsChain(m, p) && i < |p|
    ensures IsChain(m, p[i..])
  {
    hide At;
  }

  lemma {:induction false} StoredFieldsOfChains(m: Module, us: seq<Value>, visited: set<Value>, chains: seq<seq<Value>>)
    requires WellFormed(m) && AreChains(m, us, chains) && FieldlessOnly(m, visited)
    ensures StoredFields(m, us, visited).0 == FirstFields(m, chains)
    decreases |us|
  {
    hide WellFormed, IsChain, FieldlessOnly, ChainFields;
    if us == [] {
    } else if !At(m, us[0]).Store? {
      assert StoredValues(m, us) == StoredValues(m, us[1..]);
      StoredFieldsOfChains(m, us[1..], visited, chains);
    } else {
      OperandInUniverse(m, us[0], At(m, us[0]).val);
      StripInUniverse(m, At(m, us[0]).val);
      var stored := Strip(m, At(m, us[0]).val);
      assert StoredValues(m, us) == [stored] + StoredValues(m, us[1..]);
      ChainUnspoilt(m, chains[0], visited);
      FieldsOfChain(m, chains[0], visited);
      var first := Fields(m, stored, visited);
      if first.0 == [] {
        FieldlessMore(m, visited, first.1, chains[0]);
        assert forall j :: 0 <= j < |chains[1..]| ==> chains[1..][j] == chains[j + 1];
        StoredFieldsOfChains(m, us[1..], first.1, chains[1..]);
      }
    }
  }

  lemma ChainUnspoilt(m: Module, p: seq<Value>, visited: set<Value>)
    requires IsChain(m, p) && FieldlessOnly(m, visited)
    ensures Unspoilt(m, p, visited) && p != []
  {
    hide ChainFields;
  }

  lemma LoadIsInNoChain(m: Module, v: Value)
    requires At(m, v).Load? && At(m, At(m, v).ptr).Alloca?
    ensures FieldlessOnly(m, {v})
  {
    hide ChainFields;
    assert Next(m, v) == None;
    forall p, i | IsChain(m, p) && 0 <= i < |p| ensures p[i] != v {
      assert i < |p| - 1 ==> Next(m, p[i]) == Some(p[i + 1]);
    }
  }

  /** For a load of a local variable whose stored values have such chains, the indices are
      those of the first stored value, in the order of the use list, that has any. */
  lemma FieldIndicesOfLoad(m: Module, v: Value, chains: seq<seq<Value>>)
    requires WellFormed(m) && v in Universe(m) && At(m, v).Load? && At(m, At(m, v).ptr).Alloca?
    requires AreChains(m, UseList(m, At(m, v).ptr), chains)
    ensures FieldIndices(m, v) == FirstFields(m, chains)
  {
    hide WellFormed, Universe, ChainFields, AreChains, FirstFields;
    LoadIsInNoChain(m, v);
    hide FieldlessOnly;
    assert {} + {v} == {v} && FieldIndices(m, v) == StoredFields(m, UseList(m, At(m, v).ptr), {v}).0;
    StoredFieldsOfChains(m, UseList(m, At(m, v).ptr), {v}, chains);
  }

  // ----- the extraction as the pass runs it -----

  class FieldSearch {
    const m: Module
    var visited: set<Value>

    constructor (m: Module)
      ensures this.m == m && visited == {}
    {
      this.m := m;
      visited := {};
    }

    method Extract(v: Value) returns (indices: seq<int>)
      requires WellFormed(m) && v in Universe(m)
      modifies this
      ensures (indices, visited) == Fields(m, v, old(visited))
      decreases Universe(m) - visited, 0
    {
      if v in visited { return []; }
      visited := visited + {v};
      var i := At(m, v);
      if i.Gep? {
        OperandInUniverse(m, v, i.base);
        indices := Extract(i.base);
        var own := FieldOf(i);
        if own.Some? { indices := indices + [own.value]; }
      } else if i.Load? {
        OperandInUniverse(m, v, i.ptr);
        if At(m, i.ptr).Alloca? {
          indices := ExtractStored(UseList(m, i.ptr));
        } else {
          indices := Extract(i.ptr);
        }
      } else {
        indices := [];
      }
    }

    method ExtractStored(users: seq<Value>) returns (indices: seq<int>)
      requires WellFormed(m)
      modifies this
      ensures (indices, visited) == StoredFields(m, users, old(visited))
      decreases Universe(m) - visited, |users| + 1
    {
      for i := 0 to |users|
        invariant old(visited) <= visited
        invariant StoredFields(m, users, old(visited)) == StoredFields(m, users[i..], visited)
      {
        assert users[i..][1..] == users[i + 1..];
        var u := At(m, users[i]);
        if u.Store? {
          OperandInUniverse(m, users[i], u.val);
          indices := Extract(Strip(m, u.val));
          if indices != [] { return; }
        }
      }
      indices := [];
    }
  }

  method ExtractStructFieldIndices(m: Module, v: Value) returns (indices: seq<int>)
    requires WellFormed(m) && v in Universe(m)
    ensures indices == FieldIndices(m, v)
  {
    var search := new FieldSearch(m);
    indices := search.Extract(v);
  }
}
