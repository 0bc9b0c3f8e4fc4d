/** The search for the pointer parameter a value derives from: a depth-first search with
    one visited set over a graph that phis make cyclic. The main result is that on a fresh
    visited set it decides reachability of a pointer parameter exactly. */
module PointerOrigin {
  import opened Options
  import opened IR
  import opened Reachability

  // ----- what the search is for -----

  /** One step from a value to a value it may derive from. A load looks through a local
      variable to everything stored by a store that uses that variable. */
  ghost predicate DerivesFrom(m: Module, v: Value, w: Value) {
    match At(m, Strip(m, v))
    case Phi(incoming) => w in incoming
    case Gep(base, _) => w == base
    case Load(ptr) =>
      var p := Strip(m, ptr);
      if At(m, p).Alloca? then
        exists u :: u in UseList(m, p) && At(m, u).Store? && w == Strip(m, At(m, u).val)
      else w == p
    case _ => false
  }

  ghost function Derivation(m: Module): (Value, Value) -> bool { (v, w) => DerivesFrom(m, v, w) }

  ghost function Only(v: Value): Value -> bool { w => w == v }

  /** `a` is a pointer parameter and some value that is `a` under casts is reachable from `v`. */
  ghost predicate Originates(m: Module, v: Value, a: Value) {
    IsPtrArg(m, a) && exists w :: Reached(Derivation(m), Only(v), w) && Strip(m, w) == a
  }

  // ----- the search as a function of the visited set -----

  ghost function Search(m: Module, v: Value, visited: set<Value>): (r: (Option<Value>, set<Value>))
    requires WellFormed(m) && v in Universe(m)
    ensures visited <= r.1
    decreases Universe(m) - visited, 0
  {
    if v in visited then (None, visited) else
      StripInUniverse(m, v);
      var s, now := Strip(m, v), visited + {v};
      if IsPtrArg(m, s) then (Some(s), now) else
      match At(m, s)
      case Phi(incoming) =>
        assert forall w :: w in incoming ==> w in Universe(m) by { OperandsInUniverse(m, s); }
        SearchPhi(m, incoming, now)
      case Gep(base, _) =>
        OperandInUniverse(m, s, base);
        Search(m, base, now)
      case Load(ptr) =>
        OperandInUniverse(m, s, ptr);
        var p := Strip(m, ptr);
        if At(m, p).Alloca? then SearchStores(m, UseList(m, p), now) else Search(m, p, now)
      case _ => (None, now)
  }

  /** A phi visits all incoming values and answers with the first parameter found. */
  ghost function SearchPhi(m: Module, vs: seq<Value>, visited: set<Value>): (r: (Option<Value>, set<Value>))
    requires WellFormed(m) && forall v :: v in vs ==> v in Universe(m)
    ensures visited <= r.1
    decreases Universe(m) - visited, |vs| + 1
  {
    if vs == [] then (None, visited) else
      var first := Search(m, vs[0], visited);
      var rest := SearchPhi(m, vs[1..], first.1);
      (if first.0.Some? then first.0 else rest.0, rest.1)
  }

  /** The stores among the users of a local variable, stopping at the first parameter found. */
  ghost function SearchStores(m: Module, us: seq<Value>, visited: set<Value>): (r: (Option<Value>, set<Value>))
    requires WellFormed(m)
    ensures visited <= r.1
    decreases Universe(m) - visited, |us| + 1
  {
    if us == [] then (None, visited)
    else if !At(m, us[0]).Store? then SearchStores(m, us[1..], visited)
    else
      OperandInUniverse(m, us[0], At(m, us[0]).val);
      var stored := Strip(m, At(m, us[0]).val);
      if IsPtrArg(m, stored) then (Some(stored), visited) else
      var first := Search(m, stored, visited);
      if first.0.Some? then first else SearchStores(m, us[1..], first.1)
  }

  lemma OperandsInUniverse(m: Module, u: Value)
    ensures forall v :: v in Ops(At(m, u)) ==> v in Universe(m)
  {
    forall v | v in Ops(At(m, u)) ensures v in Universe(m) {
      if IsInst(m, u) { OperandInUniverse(m, u, v); }
    }
  }

  /** The search from scratch, as every caller in the pass makes it. */
  ghost function OriginOf(m: Module, v: Value): Option<Value> {
    if WellFormed(m) && v in Universe(m) then Search(m, v, {}).0 else None
  }

  // ----- a parameter that is found is reachable -----

  lemma Prepend(m: Module, v: Value, w: Value, a: Value)
    requires Originates(m, w, a) && DerivesFrom(m, v, w)
    ensures Originates(m, v, a)
  {
    var x :| Reached(Derivation(m), Only(w), x) && Strip(m, x) == a;
    var p :| Leads(Derivation(m), Only(w), p, x);
    assert Leads(Derivation(m), Only(v), [v] + p, x);
  }

  lemma OriginAtOnce(m: Module, v: Value)
    requires IsPtrArg(m, Strip(m, v))
    ensures Originates(m, v, Strip(m, v))
  {
    ReachedStart(Derivation(m), Only(v), v);
  }

  lemma {:induction false} SearchSound(m: Module, v: Value, visited: set<Value>)
    requires WellFormed(m) && v in Universe(m)
    ensures Search(m, v, visited).0.Some? ==> Originates(m, v, Search(m, v, visited).0.value)
    decreases Universe(m) - visited, 0
  {
    if v !in visited {
      StripInUniverse(m, v);
      var s, now := Strip(m, v), visited + {v};
      if IsPtrArg(m, s) {
        OriginAtOnce(m, v);
      } else {
        OperandsInUniverse(m, s);
        match At(m, s)
        case Phi(incoming) => SearchPhiSound(m, incoming, now, v);
        case Gep(base, _) =>
          SearchSound(m, base, now);
          if Search(m, base, now).0.Some? { Prepend(m, v, base, Search(m, base, now).0.value); }
        case Load(ptr) =>
          OperandInUniverse(m, s, ptr);
          var p := Strip(m, ptr);
          if At(m, p).Alloca? {
            SearchStoresSound(m, UseList(m, p), now, v);
          } else {
            SearchSound(m, p, now);
            if Search(m, p, now).0.Some? { Prepend(m, v, p, Search(m, p, now).0.value); }
          }
        case _ =>
      }
    }
  }

  lemma {:induction false} SearchPhiSound(m: Module, vs: seq<Value>, visited: set<Value>, v: Value)
    requires WellFormed(m) && forall w :: w in vs ==> w in Universe(m) && DerivesFrom(m, v, w)
    ensures SearchPhi(m, vs, visited).0.Some? ==> Originates(m, v, SearchPhi(m, vs, visited).0.value)
    decreases Universe(m) - visited, |vs| + 1
  {
    if vs != [] {
      var first := Search(m, vs[0], visited);
      SearchSound(m, vs[0], visited);
      if first.0.Some? { Prepend(m, v, vs[0], first.0.value); }
      SearchPhiSound(m, vs[1..], first.1, v);
    }
  }

  lemma {:induction false} SearchStoresSound(m: Module, us: seq<Value>, visited: set<Value>, v: Value)
    requires WellFormed(m)
    requires forall u :: u in us && At(m, u).Store? ==> DerivesFrom(m, v, Strip(m, At(m, u).val))
    ensures SearchStores(m, us, visited).0.Some? ==> Originates(m, v, SearchStores(m, us, visited).0.value)
    decreases Universe(m) - visited, |us| + 1
  {
    if us == [] {
    } else if !At(m, us[0]).Store? {
      SearchStoresSound(m, us[1..], visited, v);
    } else {
      OperandInUniverse(m, us[0], At(m, us[0]).val);
      var stored := Strip(m, At(m, us[0]).val);
      StripInUniverse(m, At(m, us[0]).val);
      if IsPtrArg(m, stored) {
        OriginAtOnce(m, stored);
        Prepend(m, v, stored, stored);
      } else {
        var first := Search(m, stored, visited);
        SearchSound(m, stored, visited);
        if first.0.Some? { Prepend(m, v, stored, first.0.value); }
        else { SearchStoresSound(m, us[1..], first.1, v); }
      }
    }
  }

  // ----- a search that finds nothing has explored everything -----

  /** Each value visited on the way from `before` to `after` is no parameter, and all that
      it may derive from was visited too. */
  ghost predicate Explored(m: Module, before: set<Value>, after: set<Value>) {
    forall w :: w in after && w !in before ==>
      !IsPtrArg(m, Strip(m, w)) && forall t :: DerivesFrom(m, w, t) ==> t in after
  }

  lemma {:induction false} SearchExplores(m: Module, v: Value, visited: set<Value>)
    requires WellFormed(m) && v in Universe(m)
    requires Search(m, v, visited).0.None?
    ensures v in Search(m, v, visited).1 && Explored(m, visited, Search(m, v, visited).1)
    decreases Universe(m) - visited, 0
  {
    if v !in visited {
      StripInUniverse(m, v);
      var s, now := Strip(m, v), visited + {v};
      OperandsInUniverse(m, s);
      match At(m, s)
      case Phi(incoming) => SearchPhiExplores(m, incoming, now);
      case Gep(base, _) => SearchExplores(m, base, now);
      case Load(ptr) =>
        OperandInUniverse(m, s, ptr);
        var p := Strip(m, ptr);
        if At(m, p).Alloca? { SearchStoresExplores(m, UseList(m, p), now); } else { SearchExplores(m, p, now); }
      case _ =>
    }
  }

  lemma {:induction false} SearchPhiExplores(m: Module, vs: seq<Value>, visited: set<Value>)
    requires WellFormed(m) && forall v :: v in vs ==> v in Universe(m)
    requires SearchPhi(m, vs, visited).0.None?
    ensures forall v :: v in vs ==> v in SearchPhi(m, vs, visited).1
    ensures Explored(m, visited, SearchPhi(m, vs, visited).1)
    decreases Universe(m) - visited, |vs| + 1
  {
    if vs != [] {
      SearchExplores(m, vs[0], visited);
      SearchPhiExplores(m, vs[1..], Search(m, vs[0], visited).1);
    }
  }

  lemma {:induction false} SearchStoresExplores(m: Module, us: seq<Value>, visited: set<Value>)
    requires WellFormed(m)
    requires SearchStores(m, us, visited).0.None?
    ensures forall u :: u in us && At(m, u).Store? ==> Strip(m, At(m, u).val) in SearchStores(m, us, visited).1
    ensures Explored(m, visited, SearchStores(m, us, visited).1)
    decreases Universe(m) - visited, |us| + 1
  {
    if us == [] {
    } else if !At(m, us[0]).Store? {
      SearchStoresExplores(m, us[1..], visited);
    } else {
      OperandInUniverse(m, us[0], At(m, us[0]).val);
      var stored := Strip(m, At(m, us[0]).val);
      SearchExplores(m, stored, visited);
      SearchStoresExplores(m, us[1..], Search(m, stored, visited).1);
    }
  }

  // ----- exactness and locality -----

  /** The search answers with a parameter exactly when one is reachable, and with a
      reachable one. */
  lemma {:induction false} OriginExact(m: Module, v: Value)
    requires WellFormed(m) && v in Universe(m)
    ensures OriginOf(m, v).Some? <==> exists a :: Originates(m, v, a)
    ensures OriginOf(m, v).Some? ==> Originates(m, v, OriginOf(m, v).value)
  {
    SearchSound(m, v, {});
    if OriginOf(m, v).None? {
      SearchExplores(m, v, {});
      var seen := Search(m, v, {}).1;
      forall a ensures !Originates(m, v, a) {
        if Originates(m, v, a) {
          var w :| Reached(Derivation(m), Only(v), w) && Strip(m, w) == a;
          ReachedIsLeast(Derivation(m), Only(v), x => x in seen, w);
        }
      }
    }
  }

  lemma DerivesLocally(m: Module, f: nat, v: Value, w: Value)
    requires WellFormed(m) && UsableIn(m, f, v) && DerivesFrom(m, v, w)
    ensures UsableIn(m, f, w)
  {
    var s := Strip(m, v);
    StripUsable(m, f, v);
    assert IsInst(m, s) && s.f == f;
    match At(m, s)
    case Phi(incoming) => assert IsUser(m, s, w);
    case Gep(base, _) => assert IsUser(m, s, w);
    case Load(ptr) =>
      assert IsUser(m, s, ptr);
      var p := Strip(m, ptr);
      StripUsable(m, f, ptr);
      if At(m, p).Alloca? {
        var u :| u in UseList(m, p) && At(m, u).Store? && w == Strip(m, At(m, u).val);
        assert IsUser(m, u, p);
        assert IsUser(m, u, At(m, u).val);
        StripUsable(m, f, At(m, u).val);
      }
    case _ =>
  }

  /** The parameter found belongs to the function the value is used in. */
  lemma OriginIsLocal(m: Module, f: nat, v: Value)
    requires WellFormed(m) && UsableIn(m, f, v)
    ensures OriginOf(m, v).Some? ==> IsPtrArg(m, OriginOf(m, v).value) && OriginOf(m, v).value.f == f
  {
    if OriginOf(m, v).Some? {
      OriginExact(m, v);
      var a := OriginOf(m, v).value;
      var w :| Reached(Derivation(m), Only(v), w) && Strip(m, w) == a;
      forall x, y | UsableIn(m, f, x) && Derivation(m)(x, y) ensures UsableIn(m, f, y) {
        DerivesLocally(m, f, x, y);
      }
      ReachedIsLeast(Derivation(m), Only(v), x => UsableIn(m, f, x), w);
      StripUsable(m, f, w);
    }
  }

  // ----- which parameter is answered -----

  /** The values stored by the stores among `us`, in their order. */
  function StoredValues(m: Module, us: seq<Value>): seq<Value> {
    if us == [] then []
    else (if At(m, us[0]).Store? then [Strip(m, At(m, us[0]).val)] else []) + StoredValues(m, us[1..])
  }

  /** The values `v` may derive from in one step, in the order in which they are tried. */
  function Branches(m: Module, v: Value): seq<Value> {
    match At(m, Strip(m, v))
    case Phi(incoming) => incoming
    case Gep(base, _) => [base]
    case Load(ptr) =>
      var p := Strip(m, ptr);
      if At(m, p).Alloca? then StoredValues(m, UseList(m, p)) else [p]
    case _ => []
  }

  /** One step that does not come back to `v`. */
  ghost function Avoiding(m: Module, v: Value): (Value, Value) -> bool {
    (x, y) => DerivesFrom(m, x, y) && y != v
  }

  /** `a` is a pointer parameter reachable from `w` without passing `v`. */
  ghost predicate OriginatesBeside(m: Module, v: Value, w: Value, a: Value) {
    IsPtrArg(m, a) && w != v && exists x :: Reached(Avoiding(m, v), Only(w), x) && Strip(m, x) == a
  }

  ghost predicate NoneBeside(m: Module, v: Value, w: Value) {
    forall a :: !OriginatesBeside(m, v, w, a)
  }

  /** `r` comes from the first of the values in turn that leads to a parameter without
      passing `v`, and is reachable from that one; it is None when there is no such value. */
  ghost predicate FromFirst(m: Module, v: Value, vs: seq<Value>, r: Option<Value>) {
    match r
    case Some(a) =>
      exists i ::
        && 0 <= i < |vs| && OriginatesBeside(m, v, vs[i], a)
        && forall j :: 0 <= j < i ==> NoneBeside(m, v, vs[j])
    case None => forall j :: 0 <= j < |vs| ==> NoneBeside(m, v, vs[j])
  }

  lemma FromFirstHere(m: Module, v: Value, vs: seq<Value>, a: Value)
    requires vs != [] && OriginatesBeside(m, v, vs[0], a)
    ensures FromFirst(m, v, vs, Some(a))
  {
  }

  lemma FromFirstLater(m: Module, v: Value, vs: seq<Value>, r: Option<Value>)
    requires vs != [] && NoneBeside(m, v, vs[0]) && FromFirst(m, v, vs[1..], r)
    ensures FromFirst(m, v, vs, r)
  {
    hide NoneBeside, OriginatesBeside;
    assert forall j :: 0 < j < |vs| ==> vs[j] == vs[1..][j - 1];
    if r.Some? {
      var i :| 0 <= i < |vs[1..]| && OriginatesBeside(m, v, vs[1..][i], r.value)
        && forall j :: 0 <= j < i ==> NoneBeside(m, v, vs[1..][j]);
      assert OriginatesBeside(m, v, vs[i + 1], r.value);
    }
  }

  lemma PrependBeside(m: Module, v: Value, u: Value, w: Value, a: Value)
    requires OriginatesBeside(m, v, w, a) && DerivesFrom(m, u, w) && u != v
    ensures OriginatesBeside(m, v, u, a)
  {
    var x :| Reached(Avoiding(m, v), Only(w), x) && Strip(m, x) == a;
    var p :| Leads(Avoiding(m, v), Only(w), p, x);
    assert Leads(Avoiding(m, v), Only(u), [u] + p, x);
  }

  lemma BesideAtOnce(m: Module, v: Value, w: Value)
    requires IsPtrArg(m, Strip(m, w)) && w != v
    ensures OriginatesBeside(m, v, w, Strip(m, w))
  {
    ReachedStart(Avoiding(m, v), Only(w), w);
  }

  /** A search does not pass values visited before; `v` stands for one that is no parameter. */
  lemma {:induction false} SearchBeside(m: Module, w: Value, visited: set<Value>, v: Value)
    requires WellFormed(m) && w in Universe(m) && v in visited && !IsPtrArg(m, Strip(m, v))
    ensures Search(m, w, visited).0.Some? ==> OriginatesBeside(m, v, w, Search(m, w, visited).0.value)
    decreases Universe(m) - visited, 0
  {
    hide OriginatesBeside;
    if w !in visited {
      StripInUniverse(m, w);
      var s, now := Strip(m, w), visited + {w};
      if IsPtrArg(m, s) {
        BesideAtOnce(m, v, w);
      } else {
        OperandsInUniverse(m, s);
        match At(m, s)
        case Phi(incoming) => PhiBeside(m, incoming, now, v, w);
        case Gep(base, _) =>
          SearchBeside(m, base, now, v);
          if Search(m, base, now).0.Some? { PrependBeside(m, v, w, base, Search(m, base, now).0.value); }
        case Load(ptr) =>
          OperandInUniverse(m, s, ptr);
          var p := Strip(m, ptr);
          if At(m, p).Alloca? {
            StoresBeside(m, UseList(m, p), now, v, w);
          } else {
            SearchBeside(m, p, now, v);
            if Search(m, p, now).0.Some? { PrependBeside(m, v, w, p, Search(m, p, now).0.value); }
          }
        case _ =>
      }
    }
  }

  lemma {:induction false} PhiBeside(m: Module, vs: seq<Value>, visited: set<Value>, v: Value, u: Value)
    requires WellFormed(m) && forall w :: w in vs ==> w in Universe(m) && DerivesFrom(m, u, w)
    requires v in visited && !IsPtrArg(m, Strip(m, v)) && u != v
    ensures SearchPhi(m, vs, visited).0.Some? ==> OriginatesBeside(m, v, u, SearchPhi(m, vs, visited).0.value)
    decreases Universe(m) - visited, |vs| + 1
  {
    hide OriginatesBeside;
    if vs != [] {
      var first := Search(m, vs[0], visited);
      SearchBeside(m, vs[0], visited, v);
      if first.0.Some? { PrependBeside(m, v, u, vs[0], first.0.value); }
      PhiBeside(m, vs[1..], first.1, v, u);
    }
  }

  lemma {:induction false} StoresBeside(m: Module, us: seq<Value>, visited: set<Value>, v: Value, u: Value)
    requires WellFormed(m) && v in visited && !IsPtrArg(m, Strip(m, v)) && u != v
    requires forall s :: s in us && At(m, s).Store? ==> DerivesFrom(m, u, Strip(m, At(m, s).val))
    ensures SearchStores(m, us, visited).0.Some? ==> OriginatesBeside(m, v, u, SearchStores(m, us, visited).0.value)
    decreases Universe(m) - visited, |us| + 1
  {
    hide OriginatesBeside;
    if us == [] {
    } else if !At(m, us[0]).Store? {
      StoresBeside(m, us[1..], visited, v, u);
    } else {
      StoredBeside(m, us[0], visited, v);
      var stored := Strip(m, At(m, us[0]).val);
      if !IsPtrArg(m, stored) {
        var first := Search(m, stored, visited);
        SearchBeside(m, stored, visited, v);
        if first.0.Some? { PrependBeside(m, v, u, stored, first.0.value); }
        else { StoresBeside(m, us[1..], first.1, v, u); }
      } else {
        PrependBeside(m, v, u, stored, stored);
      }
    }
  }

  /** A stored parameter is answered at once. */
  lemma StoredBeside(m: Module, s: Value, visited: set<Value>, v: Value)
    requires WellFormed(m) && At(m, s).Store? && !IsPtrArg(m, Strip(m, v))
    ensures var stored := Strip(m, At(m, s).val);
      stored in Universe(m) && (IsPtrArg(m, stored) ==> OriginatesBeside(m, v, stored, stored))
  {
    OperandInUniverse(m, s, At(m, s).val);
    StripInUniverse(m, At(m, s).val);
    var stored := Strip(m, At(m, s).val);
    if IsPtrArg(m, stored) { BesideAtOnce(m, v, stored); }
  }

  /** A failed search from `w` shows that no parameter is reachable from `w` beside `v`. */
  lemma FailedBeside(m: Module, w: Value, visited: set<Value>, v: Value)
    requires WellFormed(m) && w in Universe(m) && v in visited && Explored(m, {v}, visited)
    requires Search(m, w, visited).0.None?
    ensures NoneBeside(m, v, w) && Explored(m, {v}, Search(m, w, visited).1)
  {
    hide WellFormed, Universe, Search, DerivesFrom, Strip, IsPtrArg;
    SearchExplores(m, w, visited);
    var seen := Search(m, w, visited).1;
    assert Explored(m, {v}, seen);
    forall a ensures !OriginatesBeside(m, v, w, a) {
      if OriginatesBeside(m, v, w, a) {
        var x :| Reached(Avoiding(m, v), Only(w), x) && Strip(m, x) == a;
        ReachedIsLeast(Avoiding(m, v), Only(w), y => y in seen && y != v, x);
      }
    }
  }

  lemma {:induction false} PhiFromFirst(m: Module, vs: seq<Value>, visited: set<Value>, v: Value)
    requires WellFormed(m) && forall w :: w in vs ==> w in Universe(m)
    requires v in visited && !IsPtrArg(m, Strip(m, v)) && Explored(m, {v}, visited)
    ensures FromFirst(m, v, vs, SearchPhi(m, vs, visited).0)
    decreases |vs|
  {
    hide OriginatesBeside, NoneBeside, Explored;
    if vs != [] {
      var first := Search(m, vs[0], visited);
      if first.0.Some? {
        SearchBeside(m, vs[0], visited, v);
        FromFirstHere(m, v, vs, first.0.value);
      } else {
        FailedBeside(m, vs[0], visited, v);
        PhiFromFirst(m, vs[1..], first.1, v);
        FromFirstLater(m, v, vs, SearchPhi(m, vs[1..], first.1).0);
      }
    }
  }

  lemma {:induction false} StoresFromFirst(m: Module, us: seq<Value>, visited: set<Value>, v: Value)
    requires WellFormed(m)
    requires v in visited && !IsPtrArg(m, Strip(m, v)) && Explored(m, {v}, visited)
    ensures FromFirst(m, v, StoredValues(m, us), SearchStores(m, us, visited).0)
    decreases |us|
  {
    hide OriginatesBeside, NoneBeside, Explored;
    if us == [] {
    } else if !At(m, us[0]).Store? {
      StoresFromFirst(m, us[1..], visited, v);
      assert StoredValues(m, us) == StoredValues(m, us[1..]);
    } else {
      StoredBeside(m, us[0], visited, v);
      var stored, vs := Strip(m, At(m, us[0]).val), StoredValues(m, us);
      assert vs[0] == stored && vs[1..] == StoredValues(m, us[1..]);
      if IsPtrArg(m, stored) {
        FromFirstHere(m, v, vs, stored);
      } else {
        var first := Search(m, stored, visited);
        if first.0.Some? {
          SearchBeside(m, stored, visited, v);
          FromFirstHere(m, v, vs, first.0.value);
        } else {
          FailedBeside(m, stored, visited, v);
          StoresFromFirst(m, us[1..], first.1, v);
          FromFirstLater(m, v, vs, SearchStores(m, us[1..], first.1).0);
        }
      }
    }
  }

  /** The search answers a parameter with itself; any other value with what the first of its
      branches leads to, in operand order at a phi and in the order of the use list at a load
      of a local variable, among those that lead to a parameter without coming back. */
  lemma OriginIsFirst(m: Module, v: Value)
    requires WellFormed(m) && v in Universe(m)
    ensures IsPtrArg(m, Strip(m, v)) ==> OriginOf(m, v) == Some(Strip(m, v))
    ensures !IsPtrArg(m, Strip(m, v)) ==> FromFirst(m, v, Branches(m, v), OriginOf(m, v))
  {
    hide FromFirst, SearchPhi, SearchStores, Explored, UseList, StoredValues;
    StripInUniverse(m, v);
    if !IsPtrArg(m, Strip(m, v)) {
      assert Explored(m, {v}, {v}) by { NothingExplored(m, v); }
      assert {} + {v} == {v};
      var s := Strip(m, v);
      OperandsInUniverse(m, s);
      match At(m, s)
      case Phi(incoming) => PhiFromFirst(m, incoming, {v}, v);
      case Gep(base, _) => OneBranch(m, base, v);
      case Load(ptr) => LoadIsFirst(m, v);
      case _ => NoBranch(m, v);
    }
  }

  lemma LoadIsFirst(m: Module, v: Value)
    requires WellFormed(m) && v in Universe(m) && At(m, Strip(m, v)).Load? && !IsPtrArg(m, Strip(m, v))
    ensures FromFirst(m, v, Branches(m, v), OriginOf(m, v))
  {
    hide FromFirst, SearchPhi, SearchStores, Explored, UseList, StoredValues;
    assert Explored(m, {v}, {v}) by { NothingExplored(m, v); }
    assert {} + {v} == {v};
    var ptr := At(m, Strip(m, v)).ptr;
    OperandsInUniverse(m, Strip(m, v));
    OperandInUniverse(m, Strip(m, v), ptr);
    var p := Strip(m, ptr);
    if At(m, p).Alloca? {
      StoresFromFirst(m, UseList(m, p), {v}, v);
      assert OriginOf(m, v) == SearchStores(m, UseList(m, p), {v}).0;
    } else {
      OneBranch(m, p, v);
      assert OriginOf(m, v) == Search(m, p, {v}).0;
    }
  }

  lemma NoBranch(m: Module, v: Value)
    ensures FromFirst(m, v, [], None)
  {
  }

  lemma NothingExplored(m: Module, v: Value)
    ensures Explored(m, {v}, {v})
  {
  }

  lemma OneBranch(m: Module, w: Value, v: Value)
    requires WellFormed(m) && w in Universe(m) && !IsPtrArg(m, Strip(m, v))
    ensures FromFirst(m, v, [w], Search(m, w, {v}).0)
  {
    assert Explored(m, {v}, {v});
    hide OriginatesBeside, NoneBeside, WellFormed, Search, Explored;
    var r := Search(m, w, {v}).0;
    if r.Some? {
      SearchBeside(m, w, {v}, v);
      FromFirstHere(m, v, [w], r.value);
    } else {
      FailedBeside(m, w, {v}, v);
    }
  }

  // ----- the search as the pass runs it -----

  class OriginSearch {
    const m: Module
    var visited: set<Value>

    constructor (m: Module)
      ensures this.m == m && visited == {}
    {
      this.m := m;
      visited := {};
    }

    method Origin(v: Value) returns (r: Option<Value>)
      requires WellFormed(m) && v in Universe(m)
      modifies this
      ensures (r, visited) == Search(m, v, old(visited))
      decreases Universe(m) - visited, 0
    {
      if v in visited { return None; }
      visited := visited + {v};
      StripInUniverse(m, v);
      var s := Strip(m, v);
      if IsPtrArg(m, s) { return Some(s); }
      OperandsInUniverse(m, s);
      var i := At(m, s);
      if i.Phi? {
        r := OriginOfPhi(i.incoming);
      } else if i.Gep? {
        r := Origin(i.base);
      } else if i.Load? {
        OperandInUniverse(m, s, i.ptr);
        var p := Strip(m, i.ptr);
        if At(m, p).Alloca? {
          r := OriginOfStores(UseList(m, p));
        } else {
          r := Origin(p);
        }
      } else {
        r := None;
      }
    }

    method OriginOfPhi(incoming: seq<Value>) returns (first: Option<Value>)
      requires WellFormed(m) && forall v :: v in incoming ==> v in Universe(m)
      modifies this
      ensures (first, visited) == SearchPhi(m, incoming, old(visited))
      decreases Universe(m) - visited, |incoming| + 1
    {
      first := None;
      for i := 0 to |incoming|
        invariant old(visited) <= visited
        invariant SearchPhi(m, incoming, old(visited)) ==
          var rest := SearchPhi(m, incoming[i..], visited);
          (if first.Some? then first else rest.0, rest.1)
      {
        assert incoming[i..][1..] == incoming[i + 1..];
        var param := Origin(incoming[i]);
        if param.Some? && first.None? { first := param; }
      }
    }

    method OriginOfStores(users: seq<Value>) returns (r: Option<Value>)
      requires WellFormed(m)
      modifies this
      ensures (r, visited) == SearchStores(m, users, old(visited))
      decreases Universe(m) - visited, |users| + 1
    {
      for i := 0 to |users|
        invariant old(visited) <= visited
        invariant SearchStores(m, users, old(visited)) == SearchStores(m, users[i..], visited)
      {
        assert users[i..][1..] == users[i + 1..];
        var u := At(m, users[i]);
        if u.Store? {
          var stored := Strip(m, u.val);
          if IsPtrArg(m, stored) { return Some(stored); }
          OperandInUniverse(m, users[i], u.val);
          r := Origin(stored);
          if r.Some? { return; }
        }
      }
      r := None;
    }
  }

  /** One search with a visited set of its own. */
  method GetPointerParameterOrigin(m: Module, v: Value) returns (r: Option<Value>)
    requires WellFormed(m) && v in Universe(m)
    ensures r == OriginOf(m, v)
    ensures r.Some? <==> exists a :: Originates(m, v, a)
    ensures r.Some? ==> Originates(m, v, r.value)
    ensures IsPtrArg(m, Strip(m, v)) ==> r == Some(Strip(m, v))
    ensures !IsPtrArg(m, Strip(m, v)) ==> FromFirst(m, v, Branches(m, v), r)
  {
    var search := new OriginSearch(m);
    r := search.Origin(v);
    OriginExact(m, v);
    OriginIsFirst(m, v);
  }
}
