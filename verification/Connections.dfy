/**
 Deleting an OxideConnection: its finalizer stays until a scan of seven lists, each taken at a moment of
 its own, finds no resource that names it.
 */
module Connections {
  datatype Kind = Project | Vpc | VpcSubnet | Disk | Snapshot | Instance | Image

  const KINDS := [Project, Vpc, VpcSubnet, Disk, Snapshot, Instance, Image]

  datatype Resource = Resource(kind: Kind, name: string, connection: string)

  /** The resources that exist at one moment. */
  type Cluster = set<Resource>

  function Naming(cluster: Cluster, connection: string): set<Resource> {
    set r | r in cluster && r.connection == connection
  }

  function OfKind(cluster: Cluster, kind: Kind): set<Resource> {
    set r | r in cluster && r.kind == kind
  }

  lemma EveryKindIsListed(kind: Kind)
    ensures kind in KINDS
  {
    assert KINDS[0] == Project && KINDS[1] == Vpc && KINDS[2] == VpcSubnet && KINDS[3] == Disk;
    assert KINDS[4] == Snapshot && KINDS[5] == Instance && KINDS[6] == Image;
  }

  // --- The scan ---

  /** When each kind was listed. */
  type Moments = map<Kind, nat>

  predicate Complete(moments: Moments, history: seq<Cluster>) {
    forall kind :: kind in KINDS ==> kind in moments && moments[kind] < |history|
  }

  /** What the list of a kind showed of the resources that name the connection. */
  function Seen(history: seq<Cluster>, moments: Moments, connection: string, kind: Kind): set<Resource>
    requires kind in moments && moments[kind] < |history|
  {
    Naming(OfKind(history[moments[kind]], kind), connection)
  }

  predicate SawNone(history: seq<Cluster>, moments: Moments, connection: string)
    requires Complete(moments, history)
  {
    forall kind :: kind in KINDS ==> Seen(history, moments, connection, kind) == {}
  }

  /** A list shows a resource whose connection is this one. */
  lemma SawNoneIff(history: seq<Cluster>, moments: Moments, connection: string)
    requires Complete(moments, history)
    ensures !SawNone(history, moments, connection) <==>
            exists kind, r ::
              kind in KINDS && r in history[moments[kind]] && r.kind == kind && r.connection == connection
  {
    forall kind, r | kind in KINDS && r in history[moments[kind]] && r.kind == kind && r.connection == connection
      ensures !SawNone(history, moments, connection)
    {
      assert r in Seen(history, moments, connection, kind);
    }
    if !SawNone(history, moments, connection) {
      var kind :| kind in KINDS && Seen(history, moments, connection, kind) != {};
      var r :| r in Seen(history, moments, connection, kind);
    }
  }

  /**
   history[t] is the cluster at moment t; a list shows its kind as it was at some moment up to now.
   The kinds in down cannot be listed.
   */
  method List(history: seq<Cluster>, kind: Kind, down: set<Kind>) returns (ok: bool, items: seq<Resource>, moment: nat)
    requires history != []
    ensures moment < |history| && (ok <==> kind !in down)
    ensures ok ==> forall r :: r in items <==> r in OfKind(history[moment], kind)
  {
    ok, items := kind !in down, [];
    moment :| moment < |history|;
    var rest := OfKind(history[moment], kind);
    ghost var all := rest;
    while rest != {}
      invariant rest <= all && forall r :: r in items <==> r in all - rest
      decreases rest
    {
      var r :| r in rest;
      items, rest := items + [r], rest - {r};
    }
  }

  /** All lists are made before any is searched; one that fails is an error. */
  method InUse(history: seq<Cluster>, connection: string, down: set<Kind>)
    returns (ok: bool, used: bool, moments: Moments)
    requires history != []
    ensures ok <==> down == {}
    ensures ok ==> Complete(moments, history) && (used <==> !SawNone(history, moments, connection))
    ensures ok ==> (used <==> exists kind, r :: kind in KINDS && r in history[moments[kind]] && r.kind == kind
                                                && r.connection == connection)
  {
    var lists: map<Kind, seq<Resource>> := map[];
    ok, used, moments := true, false, map[];
    for i := 0 to |KINDS|
      invariant forall kind :: kind in KINDS[..i] ==>
                                 && kind !in down
                                 && kind in moments && moments[kind] < |history| && kind in lists
                                 && forall r :: r in lists[kind] <==> r in OfKind(history[moments[kind]], kind)
    {
      var items, moment;
      ok, items, moment := List(history, KINDS[i], down);
      if !ok {
        return;
      }
      lists, moments := lists[KINDS[i] := items], moments[KINDS[i] := moment];
    }
    assert KINDS[..|KINDS|] == KINDS;
    forall kind | kind in down
      ensures false
    {
      EveryKindIsListed(kind);
    }
    for i := 0 to |KINDS|
      invariant forall j :: 0 <= j < i ==> Seen(history, moments, connection, KINDS[j]) == {}
    {
      var items := lists[KINDS[i]];
      for j := 0 to |items|
        invariant forall k :: 0 <= k < j ==> items[k].connection != connection
      {
        if items[j].connection == connection {
          assert items[j] in Seen(history, moments, connection, KINDS[i]);
          SawNoneIff(history, moments, connection);
          return true, true, moments;
        }
      }
    }
    SawNoneIff(history, moments, connection);
  }

  datatype Outcome = Nothing | Failed | Requeued | Released

  datatype Fault = Clean | Lost | Late

  class ConnectionObject {
    const name: string
    var finalizer: bool

    constructor (name: string)
      ensures this.name == name && finalizer
    {
      this.name, finalizer := name, true;
    }

    /** The update may go through, be lost, or take effect and still report an error. */
    method HandleDelete(history: seq<Cluster>, down: set<Kind>, update: Fault)
        returns (result: Outcome, moments: Moments)
      requires history != []
      modifies this`finalizer
      ensures old(finalizer) && down == {} ==> Complete(moments, history)
      ensures old(finalizer) && down == {} ==>
                (result == Requeued <==> exists kind, r :: kind in KINDS && r in history[moments[kind]]
                                                           && r.kind == kind && r.connection == name)
      ensures result == if !old(finalizer) then Nothing
                        else if down != {} then Failed
                        else if !SawNone(history, moments, name) then Requeued
                        else if update.Clean? then Released else Failed
      ensures finalizer == (old(finalizer) && (down != {} || !SawNone(history, moments, name) || update.Lost?))
    {
      moments := map[];
      if !finalizer {
        return Nothing, moments;
      }
      var ok, used;
      ok, used, moments := InUse(history, name, down);
      if !ok {
        return Failed, moments;
      }
      if used {
        return Requeued, moments;
      }
      finalizer := update.Lost?;
      result := if update.Clean? then Released else Failed;
    }
  }

  // --- What the scan is worth ---

  /** From the moment the connection is being deleted, no resource starts to name it. */
  predicate NoNewReferences(history: seq<Cluster>, connection: string, deleted: nat) {
    deleted < |history|
    && forall t :: deleted <= t < |history| - 1 ==> Naming(history[t + 1], connection) <= Naming(history[t], connection)
  }

  lemma {:induction false} ReferencesOnlyGo(history: seq<Cluster>, connection: string, deleted: nat, t: nat, u: nat)
    requires NoNewReferences(history, connection, deleted) && deleted <= t <= u < |history|
    ensures Naming(history[u], connection) <= Naming(history[t], connection)
  {
    if t < u {
      ReferencesOnlyGo(history, connection, deleted, t, u - 1);
      assert Naming(history[(u - 1) + 1], connection) <= Naming(history[u - 1], connection);
    }
  }

  /** Whatever still names the connection after a clear scan came after its kind was listed but before the deletion. */
  lemma WhatAScanMisses(history: seq<Cluster>, moments: Moments, connection: string, deleted: nat, t: nat, r: Resource)
    requires NoNewReferences(history, connection, deleted) && Complete(moments, history)
    requires SawNone(history, moments, connection)
    requires forall kind :: kind in KINDS ==> moments[kind] <= t
    requires deleted <= t < |history| && r in history[t] && r.connection == connection
    ensures r.kind in KINDS && r.kind in moments && moments[r.kind] < deleted
    ensures r !in history[moments[r.kind]] && r in history[deleted]
  {
    EveryKindIsListed(r.kind);
    assert r in Naming(history[t], connection);
    assert r !in Seen(history, moments, connection, r.kind);
    ReferencesOnlyGo(history, connection, deleted, deleted, t);
    if moments[r.kind] >= deleted {
      ReferencesOnlyGo(history, connection, deleted, moments[r.kind], t);
    }
  }

  /** Lists no older than the deletion: once they are all made and clear, nothing names the connection again. */
  lemma FreshScanIsSafe(history: seq<Cluster>, moments: Moments, connection: string, deleted: nat, t: nat)
    requires NoNewReferences(history, connection, deleted) && Complete(moments, history)
    requires SawNone(history, moments, connection)
    requires forall kind :: kind in KINDS ==> deleted <= moments[kind] <= t
    requires deleted <= t < |history|
    ensures Naming(history[t], connection) == {} && forall r :: r in history[t] ==> r.connection != connection
  {
    forall r | r in history[t] && r.connection == connection
      ensures false
    {
      WhatAScanMisses(history, moments, connection, deleted, t, r);
    }
  }

  /** While a resource names the connection, at any moment, the connection is still there to reach Oxide with. */
  lemma ConnectionOutlivesItsResources(history: seq<Cluster>, moments: Moments, connection: string,
                                       deleted: nat, released: nat, t: nat, r: Resource)
    requires NoNewReferences(history, connection, deleted) && Complete(moments, history)
    requires SawNone(history, moments, connection)
    requires forall kind :: kind in KINDS ==> deleted <= moments[kind] <= released
    requires t < |history| && r in history[t] && r.connection == connection
    ensures t < released
  {
    EveryKindIsListed(r.kind);
    if deleted <= released <= t {
      FreshScanIsSafe(history, moments, connection, deleted, t);
    }
  }

  ghost predicate AlwaysSafe(moments: Moments, connection: string, deleted: nat, now: nat) {
    forall history: seq<Cluster> ::
      |history| == now + 1 && NoNewReferences(history, connection, deleted)
      && Complete(moments, history) && SawNone(history, moments, connection) ==>
        Naming(history[now], connection) == {}
  }

  /** A resource of that kind appears right after the list and stays. */
  function Missed(kind: Kind, listed: nat, connection: string, now: nat): (history: seq<Cluster>)
    ensures |history| == now + 1
  {
    seq(now + 1, t => if t <= listed then {} else {Resource(kind, "missed", connection)})
  }

  /**
   The finalizer comes off safely, whatever the cluster did, precisely when no list was older than the
   deletion. Lists come from a cache, so the code alone does not give that.
   */
  lemma ScanIsSafeIff(moments: Moments, connection: string, deleted: nat, now: nat)
    requires deleted <= now && forall kind :: kind in KINDS ==> kind in moments && moments[kind] <= now
    ensures AlwaysSafe(moments, connection, deleted, now) <==> forall kind :: kind in KINDS ==> deleted <= moments[kind]
  {
    if forall kind :: kind in KINDS ==> deleted <= moments[kind] {
      forall history: seq<Cluster> |
        |history| == now + 1 && NoNewReferences(history, connection, deleted)
        && Complete(moments, history) && SawNone(history, moments, connection)
        ensures Naming(history[now], connection) == {}
      {
        FreshScanIsSafe(history, moments, connection, deleted, now);
      }
    } else {
      var kind :| kind in KINDS && moments[kind] < deleted;
      var history := Missed(kind, moments[kind], connection, now);
      assert forall t :: deleted <= t <= now ==> history[t] == {Resource(kind, "missed", connection)};
      assert Resource(kind, "missed", connection) in Naming(history[now], connection);
      assert NoNewReferences(history, connection, deleted) && Complete(moments, history);
      assert SawNone(history, moments, connection);
    }
  }
}
