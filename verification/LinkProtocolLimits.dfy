/**
 Where the protocol's promises end: exact conditions and the inputs that cross them.
 */
module LinkProtocolLimits {
  import opened DeviceTree
  import opened PreferenceScan
  import opened Objects
  import opened LinkProtocol
  import opened LinkProtocolRuns
  import opened LinkProtocolTheorems
  import opened LinkProtocolSync
  import PvName

  /**
   The claim scan runs before the stale temporary link is removed, and sees it.  So a temporary
   link left behind that resolves to the device blocks every relink, whatever the calls return.
   */
  lemma StaleTmpBlocksRelink(s: State, l: Lvdl, path: LinkPath, f: Facts, c: RelinkCalls)
    requires Filed(s.lvdls) && Sound(s.tree, f)
    requires TmpPath(path) in s.links && s.Live(TmpPath(path), f.kname)
    ensures Relink(s, l, path, f, c).exit == NotSwapped && Relink(s, l, path, f, c).state.links == s.links
  {
    RelinkEffect(s, l, path, f, c);
    var found := PathByID(f, c.globOk);
    if found.IdPath? {
      assert s.tree.EvalSymlinks(found.path) == Resolves(f.kname);
      assert Claimed(s, path, f.kname);
      RecordFailureFrame(s, l, "EvalSymlinkFailed", found.path, f, path, c);
      RecordFailureFrame(s, l, "ListDirFailed", found.path, f, path, c);
      RecordFailureFrame(s, l, "TargetAlreadyClaimed", found.path, f, path, c);
    } else {
      RecordFailureFrame(s, l, "PreferredTargetNotFound", "", f, path, c);
    }
  }

  /**
   When neither the rename nor the removal of the temporary link works, links of the class stay
   apart iff the old link no longer resolves to the device.
   */
  lemma LeftoverBreaksUniqueIff(s: State, l: Lvdl, path: LinkPath, f: Facts, c: RelinkCalls)
    requires Filed(s.lvdls) && Sound(s.tree, f) && Unique(s) && path in s.links
    requires PathByID(f, c.globOk).IdPath? && c.evalOk && c.listOk && !Claimed(s, path, f.kname)
    requires c.rmOk && c.symlinkOk && !c.renameOk && !c.rmAfterOk
    ensures Unique(Relink(s, l, path, f, c).state) <==> !s.Live(path, f.kname)
  {
    var target, tmp := PathByID(f, c.globOk).path, TmpPath(path);
    var s1 := s.(links := s.links[tmp := target]);
    assert (s.links - {tmp})[tmp := target] == s1.links;
    RecordFailureFrame(s1, l, "RenameSymlinkFailed", target, f, path, c);
    var s' := Relink(s, l, path, f, c).state;
    assert s'.links == s1.links && s'.tree == s.tree;
    assert s'.Live(tmp, f.kname);
    if s.Live(path, f.kname) {
      assert s'.Live(path, f.kname);
    } else {
      forall a, b, k | a in s'.links && b in s'.links && a.sc == b.sc && s'.Live(a, k) && s'.Live(b, k)
        ensures a == b
      {
        if a != tmp { assert a in s.links && s.Live(a, k); }
        if b != tmp { assert b in s.links && s.Live(b, k); }
      }
    }
  }

  /**
   The claim scan looks at one storage class only: after a swap the link is the only live one
   under the whole root iff no other storage class already held the device.
   */
  lemma RelinkRootUniqueIff(s: State, l: Lvdl, path: LinkPath, f: Facts, c: RelinkCalls)
    requires Filed(s.lvdls) && Sound(s.tree, f) && Relink(s, l, path, f, c).exit == Swapped
    ensures LinksTo(Relink(s, l, path, f, c).state, f.kname) == {path}
            <==> forall e :: e in s.links && e.sc != path.sc ==> !s.Live(e, f.kname)
  {
    RelinkEffect(s, l, path, f, c);
    var s' := Relink(s, l, path, f, c).state;
    var target := PathByID(f, c.globOk).path;
    assert s.tree.EvalSymlinks(target) == Resolves(f.kname);
    assert s'.Live(path, f.kname) && path in LinksTo(s', f.kname);
    if forall e :: e in s.links && e.sc != path.sc ==> !s.Live(e, f.kname) {
      forall e | e in LinksTo(s', f.kname) ensures e == path {
        if e != path { assert e in s.links && s.Live(e, f.kname); }
      }
    } else {
      var e :| e in s.links && e.sc != path.sc && s.Live(e, f.kname);
      assert e in s'.links && s'.links[e] == s.links[e] && e in LinksTo(s', f.kname);
    }
  }

  /**
   Two links with one volume name share a record, and the schema keeps the path it has: a sync of the
   other link never finishes, whatever the calls return, and leaves the record as it is.
   */
  lemma CollidingSyncNeverFinishes(s: State, a: LinkPath, b: LinkPath, f: Facts, owner: Owner, c: SyncCalls)
    requires Filed(s.lvdls) && a != b && s.NameOf(a) == s.NameOf(b) && s.NameOf(a) in s.lvdls
    requires s.lvdls[s.NameOf(a)].status.pvPath == Some(a)
    ensures Sync(s, b, f, owner, c).outcome != Done
    ensures Sync(s, b, f, owner, c).state.lvdls == s.lvdls
  {
    SyncRecordsContent(s, b, f, owner, c);
    SyncEffect(s, b, f, owner, c);
    hide Sync, LinkName;
    UnmovedRecords(s.lvdls, Sync(s, b, f, owner, c).state.lvdls, s.node, s.NameOf(a), a, b);
  }

  lemma UnmovedRecords(
    l: map<string, Lvdl>, l': map<string, Lvdl>, node: string, name: string, a: LinkPath, b: LinkPath)
    requires KeepsRecords(l, l', node, name, b) && name in l && l[name].status.pvPath == Some(a) && a != b
    ensures l' == l
  {
    assert SameAt(l, l', name);
    assert forall n :: (n in l <==> n in l') && (n in l ==> l[n] == l'[n]);
  }

  /** With succeeding calls nothing else stops a sync: it finishes iff the record's path is unset or its own. */
  lemma SyncFinishesIff(s: State, path: LinkPath, f: Facts, owner: Owner, c: SyncCalls)
    requires Unhindered(s, path, f) && AllOk(c)
    ensures Sync(s, path, f, owner, c).outcome == Done <==> PathFits(s, path)
  {
    if PathFits(s, path) {
      ReadySyncFinishes(s, path, f, owner, c);
    } else {
      SyncRecordsContent(s, path, f, owner, c);
      SyncEffect(s, path, f, owner, c);
    }
  }

  // In a run over links with distinct names the schema rule never stands in the way.
  lemma DistinctNamesFit(s: State, path: LinkPath, inUse: iset<LinkPath>)
    requires Inv(s, inUse) && NamesDistinct(s.node, inUse) && path in inUse
    ensures PathFits(s, path)
  {
    var n := s.NameOf(path);
    if n in s.lvdls {
      assert LinkName(s.node, path) == n && NameInUse(s.node, n, inUse);
      hide LinkName, NameInUse;
      assert NamesLink(s.node, n, s.lvdls[n].node, s.lvdls[n].status.pvPath, inUse);
    }
  }

  // Such links exist: on node "n", file "a" of class "nb" and file "an" of class "b".
  lemma CollidingLinks(s: State)
    requires s.node == "n"
    ensures s.NameOf(LinkPath("nb", "a")) == s.NameOf(LinkPath("b", "an"))
  {
    var a, n, nb, an, b := PvName.Utf8("a"), PvName.Utf8("n"), PvName.Utf8("nb"), PvName.Utf8("an"), PvName.Utf8("b");
    assert a == [97] && n == [110] && b == [98];
    assert nb == n + b by { assert "nb"[1..] == "b"; }
    assert an == a + n by { assert "an"[1..] == "n"; }
    assert a + n + nb == an + n + b;
    PvName.NameDependsOnConcatenation(a, n, nb, an, n, b);
  }

  // ----- Concrete inputs beyond the conditions -----

  const WWN := "/dev/disk/by-id/wwn-1"
  const SCSI := "/dev/disk/by-id/scsi-0x"
  const ONE_DISK := Tree(["scsi-0x", "wwn-1"], map[SCSI := Resolves("sda"), WWN := Resolves("sda")], map[])

  lemma BestOfOneDisk()
    ensures Probe(ONE_DISK, BlockDevice("sda", SCSI)).remembered == SCSI
    ensures Probe(ONE_DISK, BlockDevice("sda", SCSI)).best == IdPath(WWN)
    ensures Probe(ONE_DISK, BlockDevice("sda", SCSI)).valid.Links?
  {
    assert ById("wwn-1") == WWN && ById("scsi-0x") == SCSI;
    assert DISK_BY_ID_DIR <= SCSI;
    FindDeviceIsLeastRanked(ONE_DISK, "sda");
    assert VerdictFor(ONE_DISK, "sda")(ONE_DISK.byId[0]) == Yes;
    assert VerdictFor(ONE_DISK, "sda")(ONE_DISK.byId[1]) == Yes;
    assert "wwn"[0] == 'w' && "scsi-0x"[0] == 's';
    RankFromIsLeast("wwn-1", 0, 0);
    RankFromIsLeast("scsi-0x", 0, 0);
  }

  // The one link of the disk: recorded, live, under the policy that asks for the preferred target.
  function OneLink(path: LinkPath, target: string): State {
    var name := LinkName("n", path);
    var st := LvdlStatus(target, target, [], Some(path), "", []);
    var records := map[name := Lvdl(name, name, "n", PreferredLinkTarget, st, 0)];
    State("n", ONE_DISK, map[path := target], map[], records, records)
  }

  /** A remembered path wins over the best-ranked one: a sync moves a link away from its best target. */
  lemma RememberedPathWins(path: LinkPath, owner: Owner, c: SyncCalls)
    requires AllOk(c)
    ensures var s, f := OneLink(path, WWN), Probe(ONE_DISK, BlockDevice("sda", SCSI));
            && Ready(s, path, f) && RecordMatches(s, path) && f.best == IdPath(WWN)
            && path in Sync(s, path, f, owner, c).state.links && Sync(s, path, f, owner, c).state.links[path] == SCSI
  {
    var s, f := OneLink(path, WWN), Probe(ONE_DISK, BlockDevice("sda", SCSI));
    BestOfOneDisk();
    ProbeIsSound(ONE_DISK, BlockDevice("sda", SCSI));
    hide LinkName, Sync, FindDevice, Probe;
    assert !Claimed(s, path, f.kname);
    SyncConverges(s, path, f, owner, c, c);
  }

  lemma SwapKeepsOtherClass(s: State, s': State, path: LinkPath, target: string, other: LinkPath, kname: string)
    requires s'.tree == s.tree && s'.links == SwappedLinks(s, path, target) && path.sc != other.sc
    requires s.tree.EvalSymlinks(target) == Resolves(kname) && other in s.links && s.Live(other, kname)
    ensures {path, other} <= LinksTo(s', kname)
  {
    assert s'.links[other] == s.links[other];
  }

  // A link that lost its target, and a live link of another class.
  function TwoLinks(path: LinkPath, other: LinkPath): State {
    var s := OneLink(path, "/dev/disk/by-id/gone");
    s.(links := s.links[other := WWN])
  }

  lemma TwoLinksUnclaimed(path: LinkPath, other: LinkPath)
    requires path.sc != other.sc
    ensures var s := TwoLinks(path, other);
            && !Claimed(s, path, "sda") && Filed(s.lvdls) && s.NameOf(path) in s.lvdls
            && other in s.links && s.Live(other, "sda") && s.tree == ONE_DISK
  {
    hide LinkName;
  }

  /** A relink in one storage class goes ahead although a link of another class holds the device. */
  lemma OtherClassDoesNotCount(path: LinkPath, other: LinkPath, c: RelinkCalls)
    requires path.sc != other.sc && RelinkOk(c)
    ensures var s, f := TwoLinks(path, other), Probe(ONE_DISK, BlockDevice("sda", SCSI));
            && s.NameOf(path) in s.lvdls
            && var r := Relink(s, s.lvdls[s.NameOf(path)], path, f, c);
            r.exit == Swapped && {path, other} <= LinksTo(r.state, "sda")
  {
    var s, f := TwoLinks(path, other), Probe(ONE_DISK, BlockDevice("sda", SCSI));
    TwoLinksUnclaimed(path, other);
    BestOfOneDisk();
    ProbeIsSound(ONE_DISK, BlockDevice("sda", SCSI));
    hide LinkName, Relink, FindDevice, Probe, TwoLinks;
    var l := s.lvdls[s.NameOf(path)];
    RelinkSwapsIff(s, path, f, c);
    RelinkEffect(s, l, path, f, c);
    SwapKeepsOtherClass(s, Relink(s, l, path, f, c).state, path, SCSI, other, "sda");
  }

  /** A relink that loses its rename and its clean-up leaves two live links in one storage class. */
  lemma LeftoverDuplicates(path: LinkPath, c: RelinkCalls)
    requires c.evalOk && c.listOk && c.rmOk && c.symlinkOk && !c.renameOk && !c.rmAfterOk
    ensures var s, f := OneLink(path, WWN), Probe(ONE_DISK, BlockDevice("sda", SCSI));
            && s.NameOf(path) in s.lvdls
            && Unique(s) && !Unique(Relink(s, s.lvdls[s.NameOf(path)], path, f, c).state)
  {
    var s, f := OneLink(path, WWN), Probe(ONE_DISK, BlockDevice("sda", SCSI));
    BestOfOneDisk();
    ProbeIsSound(ONE_DISK, BlockDevice("sda", SCSI));
    hide LinkName, Relink, FindDevice, Probe;
    assert s.Live(path, "sda") && !Claimed(s, path, "sda");
    LeftoverBreaksUniqueIff(s, s.lvdls[s.NameOf(path)], path, f, c);
  }
}
