/**
 InstanceSets: each keeps the Instances <set>-0 ... <set>-(R-1) of one namespace, creating or
 patching them by printed name and pruning its labelled children by parsed name.
 */
module InstanceSets {
  import opened Common
  import opened Decimal

  const INSTANCE_SET_LABEL := "oxide.100vms.com/instanceset"

  /** The rest of an Instance's spec is copied as it is. */
  datatype InstanceSpec = InstanceSpec(name: string, rest: int)

  /** spec.replicas is an int32 of at least 0. */
  type Replicas = n: nat | n <= 0x7fff_ffff

  datatype InstanceSet = InstanceSet(name: string, uid: string, replicas: Replicas, labels: map<string, string>,
      spec: InstanceSpec)

  /** An Instance object; one with a finalizer is only marked by a delete. */
  datatype Child = Child(labels: map<string, string>, owner: Option<string>, spec: InstanceSpec,
                         ready: bool, finalizer: bool, marked: bool)

  type Store = map<string, Child>

  function Prefix(s: string): string {
    s + "-"
  }

  function Name(s: string, i: nat): string {
    Prefix(s) + Dec(i)
  }

  /** strings.TrimPrefix does nothing without the prefix. */
  function TrimPrefix(name: string, prefix: string): string {
    if prefix <= name then name[|prefix|..] else name
  }

  function Index(s: string, name: string): Option<int> {
    Atoi(TrimPrefix(name, Prefix(s)))
  }

  predicate Labelled(s: string, child: Child) {
    INSTANCE_SET_LABEL in child.labels && child.labels[INSTANCE_SET_LABEL] == s
  }

  // --- Names ---

  lemma DecHasNoDash(n: nat)
    ensures '-' !in Dec(n)
  {
    assert !IsDigit('-');
  }

  /** The name determines the set and the index. */
  lemma NameInjective(s: string, i: nat, t: string, j: nat)
    requires Name(s, i) == Name(t, j)
    ensures s == t && i == j
  {
    var name := Name(s, i);
    DashPosition(s, i, t, j);
    DashPosition(t, j, s, i);
    assert |Dec(i)| == |Dec(j)|;
    assert name[|s|..][1..] == Dec(i) && name[|t|..][1..] == Dec(j);
    DecInjective(i, j);
    assert name[..|s|] == s && name[..|t|] == t;
  }

  lemma DashPosition(s: string, i: nat, t: string, j: nat)
    requires Name(s, i) == Name(t, j)
    ensures |s| >= |t|
  {
    DecHasNoDash(i);
    var name := Name(t, j);
    assert Name(s, i)[..|s| + 1] == Prefix(s) && name[|t|] == '-';
  }

  /** A printed name parses back to its index, as far as int64 goes. */
  lemma IndexOfName(s: string, i: nat)
    ensures Index(s, Name(s, i)) == if i <= MAX_INT then Some(i) else None
  {
    assert TrimPrefix(Name(s, i), Prefix(s)) == Dec(i);
    AtoiOfDec(i);
  }

  ghost predicate PrintedBy(s: string, name: string) {
    exists i: nat :: name == Name(s, i)
  }

  lemma PrintedByOne(s: string, t: string, name: string)
    requires PrintedBy(s, name) && PrintedBy(t, name)
    ensures s == t
  {
    var i: nat :| name == Name(s, i);
    var j: nat :| name == Name(t, j);
    NameInjective(s, i, t, j);
  }

  // --- What sync does ---

  function SpecFor(g: InstanceSet, i: nat): InstanceSpec {
    if g.spec.name != "" then g.spec.(name := g.spec.name + "-" + Dec(i)) else g.spec
  }

  /** The callback of CreateOrPatch on the i-th Instance as found, or on a blank one. */
  function Patched(g: InstanceSet, i: nat, child: Child): Child {
    child.(labels := child.labels + g.labels + map[INSTANCE_SET_LABEL := g.name], owner := Some(g.uid),
        spec := SpecFor(g, i))
  }

  const BLANK := Child(map[], None, InstanceSpec("", 0), false, false, false)

  function Current(store: Store, name: string): Child {
    if name in store then store[name] else BLANK
  }

  /** SetControllerReference refuses an object another controller owns. */
  predicate Ownable(g: InstanceSet, child: Child) {
    child.owner.None? || child.owner.value == g.uid
  }

  function Put(store: Store, g: InstanceSet, i: nat): Store {
    var name := Name(g.name, i);
    store[name := Patched(g, i, Current(store, name))]
  }

  /** The store after the first k Instances were created or patched. */
  function PutAll(store: Store, g: InstanceSet, k: nat): Store {
    if k == 0 then store else Put(PutAll(store, g, k - 1), g, k - 1)
  }

  function ReadyCount(store: Store, g: InstanceSet, k: nat): (n: nat)
    ensures n <= k
  {
    if k == 0 then 0 else ReadyCount(store, g, k - 1) + (if Current(store, Name(g.name, k - 1)).ready then 1 else 0)
  }

  /** All k Instances count as ready exactly when each was; so a sync ends in nil exactly when every wanted one was. */
  lemma {:induction false} AllReadyIff(store: Store, g: InstanceSet, k: nat)
    ensures ReadyCount(store, g, k) == k <==> forall i :: 0 <= i < k ==> Current(store, Name(g.name, i)).ready
  {
    if k > 0 {
      AllReadyIff(store, g, k - 1);
    }
  }

  /** The indices of the Instances that were ready when they were created or patched. */
  function ReadyOnes(store: Store, g: InstanceSet, k: nat): set<nat> {
    set i: nat | i < k && Current(store, Name(g.name, i)).ready
  }

  lemma ReadyOnesNext(store: Store, g: InstanceSet, k: nat)
    ensures k !in ReadyOnes(store, g, k)
    ensures ReadyOnes(store, g, k + 1)
            == ReadyOnes(store, g, k) + (if Current(store, Name(g.name, k)).ready then {k} else {})
  {
  }

  /** The count reported is the number of them. */
  lemma {:induction false} CountIsOfReady(store: Store, g: InstanceSet, k: nat)
    ensures ReadyCount(store, g, k) == |ReadyOnes(store, g, k)|
  {
    if k > 0 {
      CountIsOfReady(store, g, k - 1);
      ReadyOnesNext(store, g, k - 1);
    }
  }

  /** A named template gives every Instance an Oxide name of its own; everything else is copied. */
  lemma SpecNamesFollow(g: InstanceSet, i: nat, j: nat)
    ensures SpecFor(g, i).rest == g.spec.rest
    ensures g.spec.name == "" ==> SpecFor(g, i) == g.spec
    ensures g.spec.name != "" ==> SpecFor(g, i).name == Name(g.spec.name, i)
    ensures g.spec.name != "" && i != j ==> SpecFor(g, i).name != SpecFor(g, j).name
  {
    assert forall k: nat :: g.spec.name != "" ==> SpecFor(g, k).name == Name(g.spec.name, k);
    if SpecFor(g, i).name == SpecFor(g, j).name && g.spec.name != "" {
      NameInjective(g.spec.name, i, g.spec.name, j);
    }
  }

  /** The prune loop passes over this child. */
  predicate Keeps(g: InstanceSet, name: string) {
    Index(g.name, name).Some? && Index(g.name, name).value < g.replicas
  }

  /** What a name is beyond the set's prefix; one without the prefix is taken whole. */
  predicate Beyond(g: InstanceSet, name: string, suffix: string) {
    name == Prefix(g.name) + suffix || (suffix == name && !(Prefix(g.name) <= name))
  }

  /** Exactly the children whose name goes on with a numeral of an int64 number below replicas are passed over. */
  lemma KeepsIff(g: InstanceSet, name: string)
    ensures Keeps(g, name) <==>
            exists suffix: string, v: int ::
              Beyond(g, name, suffix) && Numeral(suffix, v) && -MAX_INT - 1 <= v < g.replicas
  {
    var suffix := TrimPrefix(name, Prefix(g.name));
    assert Beyond(g, name, suffix);
    forall other: string, v: int | Beyond(g, name, other)
      ensures other == suffix && (Atoi(suffix) == Some(v) <==> Numeral(other, v) && -MAX_INT - 1 <= v <= MAX_INT)
    {
      assert Prefix(g.name) <= name ==> name[|Prefix(g.name)|..] == other;
      AtoiIff(suffix, v);
    }
  }

  predicate Prunable(g: InstanceSet, name: string, child: Child) {
    Labelled(g.name, child) && !Keeps(g, name)
  }

  function Deleted(store: Store, name: string): Store {
    if name !in store then store
    else if store[name].finalizer then store[name := store[name].(marked := true)]
    else store - {name}
  }

  /** The store after those of the given children that the prune loop does not pass over were deleted. */
  function Pruned(store: Store, g: InstanceSet, names: set<string>): Store {
    map n | n in store && !(n in names && Prunable(g, n, store[n]) && !store[n].finalizer) ::
      if n in names && Prunable(g, n, store[n]) then store[n].(marked := true) else store[n]
  }

  function Synced(store: Store, g: InstanceSet): Store {
    Pruned(PutAll(store, g, g.replicas), g, store.Keys + PutAll(store, g, g.replicas).Keys)
  }

  /** How far a sync that fails has got: some Instances put, or all put and some children pruned. */
  ghost predicate PartlyPut(before: Store, g: InstanceSet, now: Store) {
    exists k :: 0 <= k <= g.replicas && OursToPut(before, g, k) && now == PutAll(before, g, k)
  }

  ghost predicate PartlyPruned(before: Store, g: InstanceSet, now: Store) {
    OursToPut(before, g, g.replicas) && exists names :: now == Pruned(PutAll(before, g, g.replicas), g, names)
  }

  /** No other controller owns one of the first k Instances. */
  predicate OursToPut(store: Store, g: InstanceSet, k: nat) {
    forall i :: 0 <= i < k && Name(g.name, i) in store ==>
      store[Name(g.name, i)].owner.None? || store[Name(g.name, i)].owner == Some(g.uid)
  }

  // --- The loops ---

  datatype Outcome = Nil | Progressing(ready: nat) | Erred

  /** The API server's view of one namespace. Unless it is healthy any call may fail, with its effect or without. */
  class Namespace {
    var store: Store

    method CreateOrPatch(g: InstanceSet, i: nat, healthy: bool) returns (ok: bool, ready: bool)
      modifies this
      ensures ok ==> Ownable(g, Current(old(store), Name(g.name, i)))
      ensures healthy && Ownable(g, Current(old(store), Name(g.name, i))) ==> ok
      ensures store != old(store) ==> Ownable(g, Current(old(store), Name(g.name, i)))
      ensures ok ==> store == Put(old(store), g, i) && ready == Current(old(store), Name(g.name, i)).ready
      ensures !ok ==> store == old(store) || store == Put(old(store), g, i)
    {
      var lost: bool, late: bool := *, *;
      var name := Name(g.name, i);
      var child := Current(store, name);
      if (lost && !healthy) || !Ownable(g, child) {
        return false, false;
      }
      store := store[name := Patched(g, i, child)];
      ok, ready := healthy || !late, child.ready;
    }

    method Delete(name: string, healthy: bool) returns (ok: bool)
      modifies this
      ensures healthy ==> ok
      ensures ok ==> store == Deleted(old(store), name)
      ensures !ok ==> store == old(store) || store == Deleted(old(store), name)
    {
      var lost: bool, late: bool := *, *;
      if lost && !healthy {
        return false;
      }
      store := Deleted(store, name);
      ok := healthy || !late;
    }

    /** The names of the set's labelled children, in some order. */
    method List(s: string, healthy: bool) returns (ok: bool, names: seq<string>)
      ensures healthy ==> ok
      ensures ok ==> forall n :: n in names <==> n in store && Labelled(s, store[n])
    {
      var lost: bool := *;
      ok, names := healthy || !lost, [];
      var rest := set n | n in store && Labelled(s, store[n]);
      ghost var all := rest;
      while rest != {}
        invariant rest <= all && forall n :: n in names <==> n in all - rest
        decreases rest
      {
        var n :| n in rest;
        names, rest := names + [n], rest - {n};
      }
    }

    method Sync(g: InstanceSet, healthy: bool) returns (result: Outcome)
      modifies this
      ensures healthy && OursToPut(old(store), g, g.replicas) ==> !result.Erred?
      ensures !result.Erred? ==> OursToPut(old(store), g, g.replicas) && store == Synced(old(store), g)
      ensures !result.Erred? ==> forall i :: 0 <= i < g.replicas ==> AsWanted(old(store), g, i, store)
      ensures !result.Erred? ==>
                && result == if ReadyCount(old(store), g, g.replicas) < g.replicas
                             then Progressing(ReadyCount(old(store), g, g.replicas)) else Nil
      ensures result.Erred? ==> PartlyPut(old(store), g, store) || PartlyPruned(old(store), g, store)
    {
      var ready := 0;
      ghost var before := store;
      for i := 0 to g.replicas
        invariant store == PutAll(before, g, i) && ready == ReadyCount(before, g, i) && OursToPut(before, g, i)
      {
        PutAllIs(before, g, i);
        NamesGrow(g.name, i);
        var ok, isReady := CreateOrPatch(g, i, healthy);
        if !ok {
          assert store == PutAll(before, g, i) || store == PutAll(before, g, i + 1);
          return Erred;
        }
        ready := if isReady then ready + 1 else ready;
      }
      ghost var put := store;
      var ok, names := List(g.name, healthy);
      if !ok {
        return Erred;
      }
      PrunedNone(put, g);
      for j := 0 to |names|
        invariant store == Pruned(put, g, Elements(names[..j]))
      {
        PrunedMore(put, g, names, j);
        var idx := Index(g.name, names[j]);
        if idx.Some? && idx.value < g.replicas {
          continue;
        }
        ok := Delete(names[j], healthy);
        if !ok {
          assert store == Pruned(put, g, Elements(names[..j])) || store == Pruned(put, g, Elements(names[..j + 1]));
          return Erred;
        }
      }
      assert names[..|names|] == names;
      PrunedAll(put, g, Elements(names), before.Keys + put.Keys);
      forall i | 0 <= i < g.replicas {
        SyncedIsAsWanted(before, g, i);
      }
      result := if ready < g.replicas then Progressing(ready) else Nil;
    }
  }

  function Elements(names: seq<string>): set<string> {
    set n | n in names
  }

  lemma PrunedNone(store: Store, g: InstanceSet)
    ensures Pruned(store, g, {}) == store
  {
  }

  lemma PrunedAll(store: Store, g: InstanceSet, names: set<string>, all: set<string>)
    requires forall n :: n in names <==> n in store && Labelled(g.name, store[n])
    requires store.Keys <= all
    ensures Pruned(store, g, names) == Pruned(store, g, all)
  {
  }

  /** Deleting one more listed child, or passing over it, is pruning one more name. */
  lemma PrunedMore(store: Store, g: InstanceSet, names: seq<string>, j: nat)
    requires j < |names| && names[j] in store && Labelled(g.name, store[names[j]])
    ensures var done := Pruned(store, g, Elements(names[..j]));
            Pruned(store, g, Elements(names[..j + 1])) ==
            if Keeps(g, names[j]) then done else Deleted(done, names[j])
  {
    assert names[..j + 1] == names[..j] + [names[j]];
    assert Elements(names[..j + 1]) == Elements(names[..j]) + {names[j]};
  }

  function Names(s: string, k: nat): set<string> {
    set i | 0 <= i < k :: Name(s, i)
  }

  lemma NamesGrow(s: string, k: nat)
    ensures Names(s, k + 1) == Names(s, k) + {Name(s, k)}
    ensures Name(s, k) !in Names(s, k)
  {
    forall i | 0 <= i < k
      ensures Name(s, k) != Name(s, i)
    {
      if Name(s, k) == Name(s, i) {
        NameInjective(s, k, s, i);
      }
    }
    assert forall i :: 0 <= i < k + 1 ==> Name(s, i) in Names(s, k) || i == k;
  }

  /** The first k puts change the first k Instances, as the template says, and nothing else. */
  lemma {:induction false} PutAllIs(store: Store, g: InstanceSet, k: nat)
    ensures var put := PutAll(store, g, k);
            && put.Keys == store.Keys + Names(g.name, k)
            && (forall i :: 0 <= i < k ==>
                  Current(put, Name(g.name, i)) == Patched(g, i, Current(store, Name(g.name, i))))
            && (forall n :: n !in Names(g.name, k) ==> Current(put, n) == Current(store, n))
  {
    if k > 0 {
      PutAllIs(store, g, k - 1);
      NamesGrow(g.name, k - 1);
      var put := PutAll(store, g, k);
      forall i | 0 <= i < k
        ensures Current(put, Name(g.name, i)) == Patched(g, i, Current(store, Name(g.name, i)))
      {
        if i < k - 1 {
          assert Name(g.name, i) in Names(g.name, k - 1);
        }
      }
    }
  }

  // --- What a finished sync leaves ---

  /** The names the set wants. */
  function Desired(g: InstanceSet): set<string> {
    Names(g.name, g.replicas)
  }

  /** The labelled children that are not being deleted. */
  function Live(store: Store, s: string): set<string> {
    set n | n in store && Labelled(s, store[n]) && !store[n].marked
  }

  lemma DesiredIsKept(g: InstanceSet, n: string)
    requires n in Desired(g)
    ensures Keeps(g, n)
  {
    var i :| 0 <= i < g.replicas && n == Name(g.name, i);
    IndexOfName(g.name, i);
  }

  lemma SyncedHasDesired(store: Store, g: InstanceSet, i: nat)
    requires i < g.replicas
    ensures var name := Name(g.name, i);
            && name in Synced(store, g)
            && Synced(store, g)[name] == Patched(g, i, Current(store, name))
            && Labelled(g.name, Synced(store, g)[name])
  {
    PutAllIs(store, g, g.replicas);
    assert Name(g.name, i) in Desired(g);
    DesiredIsKept(g, Name(g.name, i));
  }

  /** The template's spec, its name suffixed with the index. */
  predicate HasTemplate(g: InstanceSet, i: nat, child: Child) {
    child.spec.rest == g.spec.rest && child.spec.name == (if g.spec.name == "" then "" else g.spec.name + "-" + Dec(i))
  }

  /** The set's label, the template's other labels, and for the rest those the Instance had. */
  ghost predicate HasLabels(g: InstanceSet, had: map<string, string>, child: Child) {
    && Labelled(g.name, child)
    && (forall k :: k in g.labels && k != INSTANCE_SET_LABEL ==> k in child.labels && child.labels[k] == g.labels[k])
    && (forall k :: k !in g.labels && k != INSTANCE_SET_LABEL ==>
          (k in child.labels <==> k in had) && (k in had ==> child.labels[k] == had[k]))
  }

  /** What does not come from the set is as it was; a new Instance is not ready and not being deleted. */
  predicate SameState(store: Store, name: string, child: Child) {
    if name in store then
      child.ready == store[name].ready && child.finalizer == store[name].finalizer && child.marked == store[name].marked
    else !child.ready && !child.finalizer && !child.marked
  }

  /** The i-th Instance is there as the set wants it, and nothing else about it changed. */
  ghost predicate AsWanted(store: Store, g: InstanceSet, i: nat, after: Store) {
    var name := Name(g.name, i);
    && name in after
    && HasTemplate(g, i, after[name])
    && HasLabels(g, if name in store then store[name].labels else map[], after[name])
    && after[name].owner == Some(g.uid)
    && SameState(store, name, after[name])
  }

  /** A finished sync leaves every wanted Instance with the template, the labels and the owner the set asks for. */
  lemma SyncedIsAsWanted(store: Store, g: InstanceSet, i: nat)
    requires i < g.replicas
    ensures AsWanted(store, g, i, Synced(store, g))
  {
    SyncedHasDesired(store, g, i);
  }

  /** Children that are none of the wanted ones but that the prune loop passes over. */
  function Strays(store: Store, g: InstanceSet): set<string> {
    set n | n in Live(store, g.name) && n !in Desired(g) && Keeps(g, n)
  }

  /** Wanted Instances that were being deleted before the sync; patching them does not bring them back. */
  function Leaving(store: Store, g: InstanceSet): set<string> {
    set n | n in Desired(g) && n in store && store[n].marked
  }

  /** What a finished sync leaves of the set's children. */
  lemma SyncedLive(store: Store, g: InstanceSet)
    ensures Live(Synced(store, g), g.name) == Desired(g) - Leaving(store, g) + Strays(store, g)
  {
    PutAllIs(store, g, g.replicas);
    var after := Synced(store, g);
    forall n
      ensures n in Live(after, g.name) <==> n in Desired(g) - Leaving(store, g) + Strays(store, g)
    {
      if n in Desired(g) {
        var i :| 0 <= i < g.replicas && n == Name(g.name, i);
        SyncedHasDesired(store, g, i);
      }
    }
  }

  /** The sync is exact precisely when no wanted Instance was being deleted and no stray was kept. */
  lemma SyncIsExactIff(store: Store, g: InstanceSet)
    ensures Live(Synced(store, g), g.name) == Desired(g) <==> Leaving(store, g) == {} && Strays(store, g) == {}
  {
    SyncedLive(store, g);
    assert Leaving(store, g) <= Desired(g);
    assert Strays(store, g) !! Desired(g);
    var live := Live(Synced(store, g), g.name);
    assert forall n :: n in Leaving(store, g) ==> n !in live && n in Desired(g);
    assert forall n :: n in Strays(store, g) ==> n in live && n !in Desired(g);
  }

  /** Every child labelled with a set's name carries a name that set's sync prints. */
  ghost predicate Printed(store: Store, s: string) {
    forall n :: n in store && Labelled(s, store[n]) ==> PrintedBy(s, n)
  }

  lemma PrintedHasNoStrays(store: Store, g: InstanceSet)
    requires Printed(store, g.name)
    ensures Strays(store, g) == {}
  {
    forall n | n in Live(store, g.name) && Keeps(g, n)
      ensures n in Desired(g)
    {
      var i: nat :| n == Name(g.name, i);
      IndexOfName(g.name, i);
    }
  }

  /** With labelled names all printed by sync, a finished sync leaves exactly <set>-0 ... <set>-(R-1). */
  lemma SyncIsExact(store: Store, g: InstanceSet)
    requires Printed(store, g.name)
    ensures Live(Synced(store, g), g.name) == Desired(g) - Leaving(store, g)
    ensures Live(Synced(store, g), g.name) == Desired(g) <==> Leaving(store, g) == {}
  {
    SyncedLive(store, g);
    SyncIsExactIff(store, g);
    PrintedHasNoStrays(store, g);
  }

  lemma SyncKeepsPrinted(store: Store, g: InstanceSet)
    requires Printed(store, g.name)
    ensures Printed(Synced(store, g), g.name)
  {
    PutAllIs(store, g, g.replicas);
    assert forall n :: n in Desired(g) ==> PrintedBy(g.name, n);
  }

  /** A child that sync did not print may well stay: the parse is more forgiving than the print. */
  lemma StraysExist(s: string)
    ensures var g := InstanceSet(s, "", 8, map[], InstanceSpec("", 0));
            var child := BLANK.(labels := map[INSTANCE_SET_LABEL := s]);
            forall suffix :: suffix in {"-1", "+7", "007"} ==>
                               Strays(map[Prefix(s) + suffix := child], g) == {Prefix(s) + suffix}
  {
    var g := InstanceSet(s, "", 8, map[], InstanceSpec("", 0));
    var child := BLANK.(labels := map[INSTANCE_SET_LABEL := s]);
    forall suffix | suffix in {"-1", "+7", "007"}
      ensures Strays(map[Prefix(s) + suffix := child], g) == {Prefix(s) + suffix}
    {
      var n := Prefix(s) + suffix;
      assert TrimPrefix(n, Prefix(s)) == suffix;
      LenientParse();
      NotPrinted(s, suffix);
      var store := map[n := child];
      assert Live(store, s) == {n};
      assert n !in Desired(g);
    }
  }

  lemma LenientParse()
    ensures Atoi("-1") == Some(-1) && Atoi("+7") == Some(7) && Atoi("007") == Some(7)
  {
    assert "-1"[1..] == "1" && "+7"[1..] == "7";
    assert "007"[..2] == "00" && "00"[..1] == "0" && "0"[..0] == "" && "1"[..0] == "" && "7"[..0] == "";
  }

  lemma NotPrinted(s: string, suffix: string)
    requires suffix in {"-1", "+7", "007"}
    ensures forall i: nat :: Prefix(s) + suffix != Name(s, i)
  {
    forall i: nat
      ensures Prefix(s) + suffix != Name(s, i)
    {
      if Prefix(s) + suffix == Name(s, i) {
        assert suffix == (Prefix(s) + suffix)[|Prefix(s)|..] == Dec(i);
        assert !IsDigit('-') && !IsDigit('+');
        LenientParse();
        AtoiOfDec(i);
      }
    }
  }

  lemma PuttingDeletesNothing(store: Store, g: InstanceSet, k: nat, n: string)
    requires n in store
    ensures n in PutAll(store, g, k) && PutAll(store, g, k)[n].marked == store[n].marked
  {
    PutAllIs(store, g, k);
    if n in Names(g.name, k) {
      var i :| 0 <= i < k && n == Name(g.name, i);
      assert Current(PutAll(store, g, k), n) == Patched(g, i, Current(store, n));
    }
  }

  lemma PruningSparesDesired(store: Store, g: InstanceSet, names: set<string>, n: string)
    requires n in store && n in Desired(g)
    ensures n in Pruned(store, g, names) && Pruned(store, g, names)[n] == store[n]
  {
    DesiredIsKept(g, n);
  }

  /** Nothing was deleted, or marked for deletion, unless every wanted Instance exists. */
  lemma NothingDeletedEarly(before: Store, g: InstanceSet, now: Store, n: string)
    requires PartlyPut(before, g, now) || PartlyPruned(before, g, now)
    requires n in before
    requires n !in now || (now[n].marked && !before[n].marked)
    ensures Desired(g) <= now.Keys && n !in Desired(g)
  {
    forall k {:trigger PutAll(before, g, k)} | 0 <= k <= g.replicas {
      PuttingDeletesNothing(before, g, k, n);
    }
    assert !PartlyPut(before, g, now);
    var names :| now == Pruned(PutAll(before, g, g.replicas), g, names);
    PutAllIs(before, g, g.replicas);
    forall d | d in Desired(g) {
      PruningSparesDesired(PutAll(before, g, g.replicas), g, names, d);
    }
  }

  // --- Repeating a sync ---

  lemma PatchedTwice(g: InstanceSet, i: nat, child: Child)
    ensures Patched(g, i, Patched(g, i, child)) == Patched(g, i, child)
  {
    var once := Patched(g, i, child);
    assert once.labels + g.labels + map[INSTANCE_SET_LABEL := g.name] == once.labels;
  }

  lemma {:induction false} PutAllOfSynced(store: Store, g: InstanceSet, k: nat)
    requires k <= g.replicas
    ensures PutAll(Synced(store, g), g, k) == Synced(store, g)
  {
    if k > 0 {
      PutAllOfSynced(store, g, k - 1);
      SyncedHasDesired(store, g, k - 1);
      PatchedTwice(g, k - 1, Current(store, Name(g.name, k - 1)));
    }
  }

  /** Repeating a sync with nothing else changed changes nothing. */
  lemma SyncIsIdempotent(store: Store, g: InstanceSet)
    ensures Synced(Synced(store, g), g) == Synced(store, g)
  {
    PutAllOfSynced(store, g, g.replicas);
    PutAllIs(store, g, g.replicas);
  }

  // --- Several sets at once ---

  /**
   One API write of some set's sync, at any point of its run. What a sync deletes it has read in a list
   made earlier, when the store was history[seen].
   */
  datatype Write = Create(g: InstanceSet, i: nat) | Prune(g: InstanceSet, name: string, seen: nat)

  predicate Allowed(history: seq<Store>, write: Write)
    requires history != []
  {
    match write
    case Create(g, i) => i < g.replicas && Ownable(g, Current(history[|history| - 1], Name(g.name, i)))
    case Prune(g, name, seen) =>
      seen < |history| && name in history[seen] && Prunable(g, name, history[seen][name])
  }

  function Apply(store: Store, write: Write): Store {
    match write
    case Create(g, i) => Put(store, g, i)
    case Prune(g, name, _) => Deleted(store, name)
  }

  predicate Interleaving(history: seq<Store>, writes: seq<Write>) {
    |history| == |writes| + 1
    && forall k :: 0 <= k < |writes| ==>
                     Allowed(history[..k + 1], writes[k]) && history[k + 1] == Apply(history[k], writes[k])
  }

  /** Every labelled child's name was printed for the set its label names. */
  ghost predicate AllPrinted(store: Store) {
    forall n, s :: n in store && Labelled(s, store[n]) ==> PrintedBy(s, n)
  }

  lemma {:induction false} AllStayPrinted(history: seq<Store>, writes: seq<Write>, k: nat)
    requires Interleaving(history, writes) && AllPrinted(history[0]) && k < |history|
    ensures AllPrinted(history[k])
  {
    if k > 0 {
      AllStayPrinted(history, writes, k - 1);
      var write := writes[k - 1];
      forall n, s | n in history[k] && Labelled(s, history[k][n])
        ensures PrintedBy(s, n)
      {
        if write.Create? && n == Name(write.g.name, write.i) {
          assert n == Name(s, write.i);
        } else {
          assert n in history[k - 1] && Labelled(s, history[k - 1][n]);
        }
      }
    }
  }

  /** A write names an Instance its own set prints. */
  function Target(write: Write): string {
    if write.Create? then Name(write.g.name, write.i) else write.name
  }

  lemma TargetIsOwn(history: seq<Store>, writes: seq<Write>, k: nat)
    requires Interleaving(history, writes) && AllPrinted(history[0]) && k < |writes|
    ensures PrintedBy(writes[k].g.name, Target(writes[k]))
  {
    if writes[k].Prune? {
      AllStayPrinted(history, writes, writes[k].seen);
    }
  }

  function ChildrenOf(store: Store, s: string): Store {
    map n | n in store && Labelled(s, store[n]) :: store[n]
  }

  lemma WriteSparesOthers(store: Store, write: Write, s: string)
    requires AllPrinted(store) && PrintedBy(write.g.name, Target(write)) && s != write.g.name
    ensures ChildrenOf(Apply(store, write), s) == ChildrenOf(store, s)
  {
    if PrintedBy(s, Target(write)) {
      PrintedByOne(s, write.g.name, Target(write));
    }
  }

  /**
   Under any interleaving, a write of one set's sync changes no child of any other set and makes none;
   and what it deletes is no Instance that set wants.
   */
  lemma SetsDoNotInterfere(history: seq<Store>, writes: seq<Write>, k: nat)
    requires Interleaving(history, writes) && AllPrinted(history[0]) && k < |writes|
    ensures forall s :: s != writes[k].g.name ==> ChildrenOf(history[k + 1], s) == ChildrenOf(history[k], s)
    ensures writes[k].Prune? ==> Target(writes[k]) !in Desired(writes[k].g)
  {
    var write := writes[k];
    TargetIsOwn(history, writes, k);
    AllStayPrinted(history, writes, k);
    forall s | s != write.g.name {
      WriteSparesOthers(history[k], write, s);
    }
    if write.Prune? && Target(write) in Desired(write.g) {
      DesiredIsKept(write.g, Target(write));
    }
  }

  /** The part of the namespace a set's sync can name. */
  ghost function Own(store: Store, s: string): Store {
    map n | n in store && PrintedBy(s, n) :: store[n]
  }

  function WritesOf(writes: seq<Write>, s: string): seq<Write> {
    if writes == [] then [] else
      WritesOf(writes[..|writes| - 1], s) +
      (if writes[|writes| - 1].g.name == s then [writes[|writes| - 1]] else [])
  }

  function ApplyAll(store: Store, writes: seq<Write>): Store {
    if writes == [] then store else Apply(ApplyAll(store, writes[..|writes| - 1]), writes[|writes| - 1])
  }

  lemma OwnAfter(store: Store, write: Write, s: string)
    requires PrintedBy(write.g.name, Target(write))
    ensures Own(Apply(store, write), s) == if write.g.name == s then Apply(Own(store, s), write) else Own(store, s)
  {
    if write.g.name != s && PrintedBy(s, Target(write)) {
      PrintedByOne(s, write.g.name, Target(write));
    }
  }

  lemma WritesOfNext(writes: seq<Write>, k: nat, s: string)
    requires k < |writes|
    ensures WritesOf(writes[..k + 1], s) ==
            if writes[k].g.name == s then WritesOf(writes[..k], s) + [writes[k]] else WritesOf(writes[..k], s)
  {
    assert writes[..k + 1][..k] == writes[..k];
  }

  lemma ApplyAllNext(store: Store, writes: seq<Write>, write: Write)
    ensures ApplyAll(store, writes + [write]) == Apply(ApplyAll(store, writes), write)
  {
    assert (writes + [write])[..|writes|] == writes;
  }

  lemma SerialNext(first: Store, here: Store, next: Store, writes: seq<Write>, k: nat, s: string)
    requires k < |writes| && here == ApplyAll(first, WritesOf(writes[..k], s))
    requires next == if writes[k].g.name == s then Apply(here, writes[k]) else here
    ensures next == ApplyAll(first, WritesOf(writes[..k + 1], s))
  {
    WritesOfNext(writes, k, s);
    ApplyAllNext(first, WritesOf(writes[..k], s), writes[k]);
  }

  /** However the syncs of many sets interleave, each set's part is what its own writes alone make of it. */
  lemma {:induction false} InterleavingIsSerial(history: seq<Store>, writes: seq<Write>, k: nat, s: string)
    requires Interleaving(history, writes) && AllPrinted(history[0]) && k < |history|
    ensures Own(history[k], s) == ApplyAll(Own(history[0], s), WritesOf(writes[..k], s))
  {
    if k > 0 {
      InterleavingIsSerial(history, writes, k - 1, s);
      TargetIsOwn(history, writes, k - 1);
      assert history[(k - 1) + 1] == Apply(history[k - 1], writes[k - 1]);
      OwnAfter(history[k - 1], writes[k - 1], s);
      SerialNext(Own(history[0], s), Own(history[k - 1], s), Own(history[k], s), writes, k - 1, s);
    }
  }
}
