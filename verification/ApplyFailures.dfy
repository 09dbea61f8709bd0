/** Inputs at which an apply does not do all one would expect of it. */
module ApplyFailures {
  import opened Basics
  import opened Corefile
  import opened Policy
  import opened RenderedFiles
  import opened Gateway
  import opened Apply

  function OneBlock(id: ProfileId): seq<ServerBlock> {
    [Policy.Policy(id, None)]
  }

  function OneText(id: ProfileId, style: Style): string {
    CorefileText(OneBlock(id), style)
  }

  /** The files of a household with one profile. */
  function OneProfile(id: ProfileId, style: Style): Files {
    map[COREFILE := OneText(id, style), HostsName(id) := ""]
  }

  lemma OneBlockName(id: ProfileId)
    ensures BlockNames(OneBlock(id)) == {HostsName(id)}
  {
    var blocks := OneBlock(id);
    assert blocks[1..] == [];
    assert BlockName(blocks[0]) + {} == {HostsName(id)};
  }

  lemma OneName(id: ProfileId, style: Style)
    ensures References(OneText(id, style)) == Some({HostsName(id)}) && HasBlocks(OneText(id, style))
  {
    OneBlockName(id);
    ParsingUndoesRendering(OneBlock(id), style);
    RenderedServes(OneBlock(id), style, 0);
  }

  lemma OneProfileIs(id: ProfileId, style: Style, files: Files)
    requires files == OneProfile(id, style)
    ensures Deployable(files) && Closed(files) && files.Keys == {COREFILE, HostsName(id)}
    ensures References(files[COREFILE]) == Some({HostsName(id)}) && HostsName(id) != COREFILE && IsManaged(HostsName(id))
  {
    OneName(id, style);
    HostsNameIsSafe(id);
    assert files[COREFILE] == OneText(id, style);
  }

  /** The household changed from profile 1 to profile 2, and the change is rolled back: once the Corefile is restored, it
      names a hosts file that is not there yet. */
  lemma MidRollbackIsNotClosed(style: Style)
    ensures
      var dir, files := OneProfile(1, style), OneProfile(2, style);
      && Closed(dir) && Deployable(files) && Stale(dir, files) == {HostsName(1)} && InOrder(files, files.Keys, {HostsName(1)})
      && !Closed(Restored(During(dir, files, files.Keys, {HostsName(1)}), Backup(dir, files.Keys + {HostsName(1)}), {COREFILE}))
  {
    var dir, files := OneProfile(1, style), OneProfile(2, style);
    OneProfileIs(1, style, dir);
    OneProfileIs(2, style, files);
    if HostsName(1) == HostsName(2) {
      HostsNameIsInjective(1, 2);
    }
    RollbackPoint(dir, files, files.Keys, {HostsName(1)}, files.Keys + {HostsName(1)}, {COREFILE});
    RollbackIsClosedExactlyWhen(dir, files, files.Keys, {HostsName(1)}, {COREFILE});
  }

  // ----- the stores around the files

  const PLAIN: Settings := Settings("1.1.1.1", "standard")

  /** A world in which every transport is the standard one and settings without a resolver are not acceptable. */
  function Surroundings(): World {
    World(text => Some(text), (settings: Settings) => Standard, (settings: Settings) => settings.upstreams != "", endpoint => true)
  }

  /** Nothing goes wrong. */
  const FINE: Luck := Luck(true, true, Unavailable, {}, {}, hash => true, true, true, true, true, true, true)

  /** Whatever is applied: when renaming over the published snapshot is refused twice on the second apply, the snapshot that
      was there is gone, while the files of the first stay. */
  method PublishedSnapshotIsLost(manager: Manager, files: Files) returns (before: Option<Settings>, first: bool, second: bool)
    requires Deployable(files) && manager.gateway.Valid()
    modifies manager, manager.gateway
    ensures first && before == Some(old(manager.settings)) && Installed(old(manager.dir), files, manager.dir)
    ensures !second && manager.published == None && manager.settings == old(manager.settings)
  {
    ghost var pass;
    first, pass := manager.Apply(Some(files), Surroundings(), FINE);
    before := manager.published;
    second, pass := manager.Apply(Some(files), Surroundings(), FINE.(renamed := false, retried := false));
  }

  /** Whatever is sent: a replica whose own settings name no resolver and whose DNS engine rejects the files keeps its files,
      and the controller's settings. */
  method NewSettingsStay(manager: Manager, files: Files) returns (ok: bool)
    requires Replicable(files) && manager.gateway.Valid() && manager.settings.upstreams == ""
    modifies manager, manager.gateway
    ensures !ok && manager.dir == old(manager.dir) && manager.published == old(manager.published)
    ensures manager.settings == PLAIN != old(manager.settings)
  {
    ghost var pass;
    ok, pass := manager.ApplyReplica(files, PLAIN, Surroundings(), FINE.(engine := false));
  }

  /** There are such files. */
  lemma OneProfileIsReplicable(id: ProfileId, style: Style)
    requires |OneText(id, style)| <= MAX_BYTES
    ensures Replicable(OneProfile(id, style))
  {
    var files := OneProfile(id, style);
    OneProfileIs(id, style, files);
    TotalSplit(files, files.Keys, COREFILE);
    assert files.Keys - {COREFILE} == {HostsName(id)};
    TotalOfOne(files, HostsName(id));
    assert |files.Keys| == |{COREFILE, HostsName(id)}|;
  }
}
