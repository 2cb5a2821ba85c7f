/**
 The in-memory index of device-link records: for every by-id path, the records that list it as a
 valid target.  The index must agree with the plain map from record names to latest records.
 */
module LinkCache {
  import opened Objects

  type Index = map<string, map<string, Lvdl>>

  // The records of `view` that list target `t`.
  function Listing(view: map<string, Lvdl>, t: string): map<string, Lvdl> {
    map n | n in view && t in view[n].status.valid :: view[n]
  }

  function Entry(index: Index, t: string): map<string, Lvdl> {
    if t in index then index[t] else map[]
  }

  ghost predicate NoEmptyEntry(index: Index) {
    forall t :: t in index ==> index[t] != map[]
  }

  // What the index has to be: exactly the records listing each target, and no empty entry.
  ghost predicate Agrees(index: Index, view: map<string, Lvdl>) {
    NoEmptyEntry(index) && forall t :: Entry(index, t) == Listing(view, t)
  }

  ghost predicate KeyedByName(view: map<string, Lvdl>) {
    forall n :: n in view ==> view[n].name == n
  }

  // ----- Specification of the three operations on the index -----

  function DropFrom(index: Index, name: string, t: string): Index {
    if t !in index then index
    else
      var rest := index[t] - {name};
      if rest == map[] then index - {t} else index[t := rest]
  }

  function DropFromAll(index: Index, name: string, targets: seq<string>): Index {
    if targets == [] then index
    else DropFrom(DropFromAll(index, name, targets[..|targets| - 1]), name, targets[|targets| - 1])
  }

  function AddToAll(index: Index, l: Lvdl, targets: seq<string>): Index {
    if targets == [] then index
    else
      var front := AddToAll(index, l, targets[..|targets| - 1]);
      var t := targets[|targets| - 1];
      front[t := Entry(front, t)[l.name := l]]
  }

  // Drops a name from every entry that is not kept.
  function Purged(index: Index, name: string, keep: seq<string>): Index {
    map t | t in index && (t in keep || index[t] - {name} != map[]) ::
      if t in keep then index[t] else index[t] - {name}
  }

  function Updated(index: Index, l: Lvdl): Index {
    AddToAll(Purged(index, l.name, l.status.valid), l, l.status.valid)
  }

  // ----- Update keeps the agreement -----

  lemma {:induction false} AddToAllEntries(index: Index, l: Lvdl, targets: seq<string>, t: string)
    requires NoEmptyEntry(index)
    ensures NoEmptyEntry(AddToAll(index, l, targets))
    ensures Entry(AddToAll(index, l, targets), t)
            == if t in targets then Entry(index, t)[l.name := l] else Entry(index, t)
  {
    if targets != [] {
      var n := |targets| - 1;
      AddToAllEntries(index, l, targets[..n], t);
      assert l.name in Entry(AddToAll(index, l, targets[..n]), targets[n])[l.name := l];
      assert targets == targets[..n] + [targets[n]];
      assert t in targets <==> t in targets[..n] || t == targets[n];
    }
  }

  lemma PurgedEntry(index: Index, name: string, keep: seq<string>, t: string)
    requires NoEmptyEntry(index)
    ensures NoEmptyEntry(Purged(index, name, keep))
    ensures Entry(Purged(index, name, keep), t) == if t in keep then Entry(index, t) else Entry(index, t) - {name}
  {
  }

  lemma UpdateAgrees(index: Index, view: map<string, Lvdl>, l: Lvdl)
    requires Agrees(index, view)
    ensures Agrees(Updated(index, l), view[l.name := l])
  {
    var purged, view' := Purged(index, l.name, l.status.valid), view[l.name := l];
    PurgedEntry(index, l.name, l.status.valid, "");
    AddToAllEntries(purged, l, l.status.valid, "");
    forall t
      ensures Entry(Updated(index, l), t) == Listing(view', t)
    {
      PurgedEntry(index, l.name, l.status.valid, t);
      AddToAllEntries(purged, l, l.status.valid, t);
      UpdatedListing(view, l, t);
    }
  }

  lemma UpdatedListing(view: map<string, Lvdl>, l: Lvdl, t: string)
    ensures Listing(view[l.name := l], t) ==
              if t in l.status.valid then Listing(view, t)[l.name := l] else Listing(view, t) - {l.name}
  {
  }

  // ----- Removal keeps the agreement exactly when the removed object carries enough targets -----

  lemma {:induction false} DropFromAllEntries(index: Index, name: string, targets: seq<string>, t: string)
    requires NoEmptyEntry(index)
    ensures NoEmptyEntry(DropFromAll(index, name, targets))
    ensures Entry(DropFromAll(index, name, targets), t)
            == if t in targets then Entry(index, t) - {name} else Entry(index, t)
  {
    if targets != [] {
      var n := |targets| - 1;
      DropFromAllEntries(index, name, targets[..n], t);
      assert targets == targets[..n] + [targets[n]];
      assert t in targets <==> t in targets[..n] || t == targets[n];
      assert Entry(index, t) - {name} - {name} == Entry(index, t) - {name};
    }
  }

  ghost predicate Carries(view: map<string, Lvdl>, name: string, targets: seq<string>) {
    name in view ==> forall t :: t in view[name].status.valid ==> t in targets
  }

  /** A removal leaves the index in agreement iff the removed object lists every indexed target. */
  lemma RemoveAgreesIff(index: Index, view: map<string, Lvdl>, name: string, targets: seq<string>)
    requires Agrees(index, view)
    ensures Agrees(DropFromAll(index, name, targets), view - {name}) <==> Carries(view, name, targets)
  {
    var r, view' := DropFromAll(index, name, targets), view - {name};
    DropFromAllEntries(index, name, targets, "");
    if Carries(view, name, targets) {
      forall t
        ensures Entry(r, t) == Listing(view', t)
      {
        DropFromAllEntries(index, name, targets, t);
        assert Listing(view', t) == Listing(view, t) - {name};
        assert t !in targets ==> name !in Listing(view, t);
      }
    } else {
      var t :| name in view && t in view[name].status.valid && t !in targets;
      DropFromAllEntries(index, name, targets, t);
      assert name in Listing(view, t) && name !in Listing(view', t);
    }
  }

  // An object deleted with an empty status stays in the index.
  lemma BareRemovalLeavesEntry(l: Lvdl, t: string)
    requires l.status.valid == [t]
    ensures Agrees(map[t := map[l.name := l]], map[l.name := l])
    ensures var left := DropFromAll(map[t := map[l.name := l]], l.name, []);
            t in left && l.name in left[t] && !Agrees(left, map[])
  {
    var index, view := map[t := map[l.name := l]], map[l.name := l];
    forall u ensures Entry(index, u) == Listing(view, u) {
      assert Entry(index, u) == if u == t then view else map[];
    }
    assert view - {l.name} == map[];
    RemoveAgreesIff(index, view, l.name, []);
    assert t in view[l.name].status.valid;
  }

  // ----- Whole event histories -----

  datatype Event = Update(l: Lvdl) | Remove(l: Lvdl)

  // The latest local-node record of each name.
  function ViewAfter(node: string, events: seq<Event>): map<string, Lvdl> {
    if events == [] then map[]
    else
      var v := ViewAfter(node, events[..|events| - 1]);
      match events[|events| - 1]
      case Update(l) => if l.node == node then v[l.name := l] else v
      case Remove(l) => v - {l.name}
  }

  function IndexAfter(node: string, events: seq<Event>): Index {
    if events == [] then map[]
    else
      var i := IndexAfter(node, events[..|events| - 1]);
      match events[|events| - 1]
      case Update(l) => if l.node == node then Updated(i, l) else i
      case Remove(l) => DropFromAll(i, l.name, l.status.valid)
  }

  // Every removal carries at least the targets indexed for its name at that point.
  ghost predicate RemovalsCarry(node: string, events: seq<Event>) {
    forall k :: 0 <= k < |events| && events[k].Remove? ==>
      Carries(ViewAfter(node, events[..k]), events[k].l.name, events[k].l.status.valid)
  }

  /** After any such history the index is exact. */
  lemma {:induction false} HistoryAgrees(node: string, events: seq<Event>)
    requires RemovalsCarry(node, events)
    ensures Agrees(IndexAfter(node, events), ViewAfter(node, events))
  {
    if events != [] {
      var n := |events| - 1;
      var front := events[..n];
      forall k | 0 <= k < |front| && front[k].Remove?
        ensures Carries(ViewAfter(node, front[..k]), front[k].l.name, front[k].l.status.valid)
      {
        assert front[..k] == events[..k] && front[k] == events[k];
      }
      HistoryAgrees(node, front);
      match events[n]
      case Update(l) => UpdateAgrees(IndexAfter(node, front), ViewAfter(node, front), l);
      case Remove(l) => RemoveAgreesIff(IndexAfter(node, front), ViewAfter(node, front), l.name, l.status.valid);
    }
  }

  // ----- Lookup -----

  // Linear scan: the records listing the path, else the records listing any sibling link.
  function Merged(view: map<string, Lvdl>, siblings: seq<string>): map<string, Lvdl> {
    map n | n in view && exists t :: t in siblings && t in view[n].status.valid :: view[n]
  }

  function Managed(view: map<string, Lvdl>, path: string, siblings: seq<string>): map<string, Lvdl> {
    if Listing(view, path) != map[] then Listing(view, path) else Merged(view, siblings)
  }

  class LocalVolumeDeviceLinkCache {
    const localNode: string
    var infos: Index
    // the plain map the index stands for
    ghost var view: map<string, Lvdl>

    ghost predicate Valid()
      reads this
    {
      Agrees(infos, view) && KeyedByName(view) && forall n :: n in view ==> view[n].node == localNode
    }

    constructor (node: string)
      ensures Valid() && localNode == node && view == map[]
    {
      localNode := node;
      infos := map[];
      view := map[];
    }

    method AddOrUpdate(l: Lvdl)
      requires Valid()
      modifies this
      ensures Valid()
      ensures view == if l.node == localNode then old(view)[l.name := l] else old(view)
      ensures infos == if l.node == localNode then Updated(old(infos), l) else old(infos)
    {
      if l.node != localNode {
        return;
      }
      PurgeStale(l.name, l.status.valid);
      ghost var purged := infos;
      for k := 0 to |l.status.valid|
        invariant infos == AddToAll(purged, l, l.status.valid[..k])
        invariant view == old(view)
      {
        var t := l.status.valid[k];
        assert l.status.valid[..k + 1][..k] == l.status.valid[..k];
        var info := if t in infos then infos[t] else map[];
        infos := infos[t := info[l.name := l]];
      }
      assert l.status.valid[..|l.status.valid|] == l.status.valid;
      UpdateAgrees(old(infos), old(view), l);
      view := view[l.name := l];
    }

    // Removes the name from entries whose target is no longer listed.
    method PurgeStale(name: string, keep: seq<string>)
      requires NoEmptyEntry(infos)
      modifies this`infos
      ensures infos == Purged(old(infos), name, keep)
    {
      var todo := infos.Keys;
      while todo != {}
        invariant todo <= old(infos).Keys
        invariant forall t :: t in todo ==> t in infos && infos[t] == old(infos)[t]
        invariant forall t :: t !in todo ==>
                    && (t in infos <==> t in Purged(old(infos), name, keep))
                    && (t in infos ==> infos[t] == Purged(old(infos), name, keep)[t])
        decreases |todo|
      {
        var t :| t in todo;
        todo := todo - {t};
        if t !in keep && name in infos[t] {
          var rest := infos[t] - {name};
          infos := if rest == map[] then infos - {t} else infos[t := rest];
        } else {
          assert t !in keep ==> infos[t] - {name} == infos[t];
        }
      }
    }

    method Remove(l: Lvdl)
      requires Valid()
      modifies this
      ensures view == old(view) - {l.name}
      ensures Valid() <==> Carries(old(view), l.name, l.status.valid)
      ensures infos == DropFromAll(old(infos), l.name, l.status.valid)
    {
      for k := 0 to |l.status.valid|
        invariant infos == DropFromAll(old(infos), l.name, l.status.valid[..k])
        invariant view == old(view)
      {
        var t := l.status.valid[k];
        assert l.status.valid[..k + 1][..k] == l.status.valid[..k];
        if t in infos {
          var rest := infos[t] - {l.name};
          infos := if rest == map[] then infos - {t} else infos[t := rest];
        }
      }
      assert l.status.valid[..|l.status.valid|] == l.status.valid;
      RemoveAgreesIff(old(infos), old(view), l.name, l.status.valid);
      view := view - {l.name};
    }

    /** The lookup returns what a linear scan of the latest local records returns. */
    method FindManaged(path: string, siblings: seq<string>) returns (found: map<string, Lvdl>)
      requires Valid()
      ensures found == Managed(view, path, siblings)
    {
      assert Entry(infos, path) == Listing(view, path);
      if path in infos {
        return infos[path];
      }
      found := map[];
      for k := 0 to |siblings|
        invariant found == Merged(view, siblings[..k])
      {
        var t := siblings[k];
        assert Entry(infos, t) == Listing(view, t);
        MergeOne(view, siblings[..k], t);
        assert siblings[..k] + [t] == siblings[..k + 1];
        if t in infos {
          found := found + infos[t];
        } else {
          assert found + map[] == found;
        }
      }
      assert siblings[..|siblings|] == siblings;
    }
  }

  lemma MergeOne(view: map<string, Lvdl>, siblings: seq<string>, t: string)
    ensures Merged(view, siblings + [t]) == Merged(view, siblings) + Listing(view, t)
  {
  }
}
