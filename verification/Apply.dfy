/** Installing a configuration: files, gateway and published snapshot change together or not at all. */
module Apply {
  import opened Basics
  import opened Corefile
  import opened Gateway

  // ----- the directory while files are being replaced

  /** The directory `dir` after the files in `done` were renamed into place and those in `gone` removed. */
  function During(dir: Files, files: Files, done: set<Name>, gone: set<Name>): Files
    requires done <= files.Keys
  {
    map name | name in (dir.Keys + done) - gone :: if name in done then files[name] else dir[name]
  }

  /** Stale files are removed only after all writes, and the Corefile is written only after all other files. */
  predicate InOrder(files: Files, done: set<Name>, gone: set<Name>) {
    done <= files.Keys && gone !! files.Keys && (COREFILE in done || gone != {} ==> done == files.Keys)
  }

  /** After every single rename or removal, every hosts file named by the Corefile on disk exists. */
  lemma ForwardPassStaysClosed(dir: Files, files: Files, done: set<Name>, gone: set<Name>)
    requires Closed(dir) && Deployable(files) && InOrder(files, done, gone)
    ensures Closed(During(dir, files, done, gone))
  {
    var now := During(dir, files, done, gone);
    if COREFILE in done {
      assert now[COREFILE] == files[COREFILE];
    } else if COREFILE in dir {
      assert gone == {};
      assert now[COREFILE] == dir[COREFILE];
    }
  }

  /** Rollback restores the Corefile first. Until it is done, the directory is closed exactly when the old Corefile names
      no removed file that is still to be restored. */
  lemma RollbackIsClosedExactlyWhen(dir: Files, files: Files, done: set<Name>, gone: set<Name>, restored: set<Name>)
    requires Closed(dir) && InOrder(files, done, gone) && COREFILE in restored && COREFILE in files
    ensures Closed(During(dir, files, done - restored, gone - restored)) <==>
      (COREFILE in dir && References(dir[COREFILE]).Some? ==> References(dir[COREFILE]).value !! gone - restored)
  {
    var now := During(dir, files, done - restored, gone - restored);
    assert COREFILE in now <==> COREFILE in dir;
    if COREFILE in dir {
      assert now[COREFILE] == dir[COREFILE];
    }
  }

  /** The names of the snapshot that existed, with their contents. */
  function Backup(dir: Files, names: set<Name>): Files {
    map name | name in names * dir.Keys :: dir[name]
  }

  /** Every touched name as it was in the snapshot: its content, or no file. */
  function Restored(dir: Files, backups: Files, touched: set<Name>): Files {
    map name | name in (dir.Keys - touched) + (backups.Keys * touched) :: if name in touched then backups[name] else dir[name]
  }

  lemma RollbackUndoes(dir: Files, files: Files, done: set<Name>, gone: set<Name>, touched: set<Name>)
    requires done <= files.Keys && done <= touched && gone <= touched
    ensures Restored(During(dir, files, done, gone), Backup(dir, touched), touched) == dir
  {
    var now := Restored(During(dir, files, done, gone), Backup(dir, touched), touched);
    assert now.Keys == dir.Keys;
  }

  function Stale(dir: Files, files: Files): set<Name> {
    set name | name in dir && IsManaged(name) && name !in files
  }

  /** The managed files are exactly the desired ones; every other file is as it was. */
  predicate Installed(before: Files, files: Files, dir: Files) {
    && Agree(dir, files)
    && (forall name :: name in dir && IsManaged(name) ==> name in files)
    && (forall name :: name in before && name !in files && !IsManaged(name) ==> name in dir)
    && (forall name :: name in dir && name !in files ==> name in before && dir[name] == before[name])
  }

  lemma CompletePassInstalls(dir: Files, files: Files)
    ensures Installed(dir, files, During(dir, files, files.Keys, Stale(dir, files)))
  {
  }

  /** An installed configuration reads back, for replication, as what was installed. */
  lemma InstalledReadsBack(before: Files, files: Files, dir: Files, read: Files)
    requires Installed(before, files, dir) && Deployable(files)
    ensures Closed(dir) && (Readable(dir) <==> Total(files, files.Keys) <= MAX_BYTES)
    ensures read.Keys == References(dir[COREFILE]).value + {COREFILE} && Agree(dir, read) ==> read == files
  {
    ReadBack(dir, files);
  }

  // ----- the world around the manager

  datatype Settings = Settings(upstreams: string, transport: string)

  /** Functions of other components. */
  datatype World = World(
    hash: string -> Option<string>,
    config: Settings -> Config,
    acceptable: Settings -> bool,
    valid: Endpoint -> bool)

  /** What the running DNS engine reports: a hash, none yet, or nothing readable. */
  datatype Live = Hash(value: string) | Unavailable | Unreadable

  /** What goes well in one apply: every operation that can fail is decided here. */
  datatype Luck = Luck(
    listing: bool,
    engine: bool,
    live: Live,
    unwritable: set<Name>,
    unremovable: set<Name>,
    reports: string -> bool,
    staged: bool,
    renamed: bool,
    cleared: bool,
    retried: bool,
    stored: bool,
    putBack: bool)

  class Manager {
    var dir: Files
    var settings: Settings
    var published: Option<Settings>
    var bootstrapped: bool
    const gateway: Proxy

    constructor (gateway: Proxy, dir: Files, settings: Settings)
      ensures this.gateway == gateway && this.dir == dir && this.settings == settings && published == None && !bootstrapped
    {
      this.gateway, this.dir, this.settings, published, bootstrapped := gateway, dir, settings, None, false;
    }

    // ----- files

    method Snapshot(names: seq<Name>) returns (backups: Files)
      ensures backups == Backup(dir, Elements(names))
    {
      backups := map[];
      for i := 0 to |names|
        invariant backups == Backup(dir, Elements(names[..i]))
      {
        assert names[..i + 1] == names[..i] + [names[i]];
        if names[i] in dir {
          backups := backups[names[i] := dir[names[i]]];
        }
      }
      assert names[..|names|] == names;
    }

    method Rollback(backups: Files, touched: seq<Name>)
      modifies this`dir
      ensures dir == Restored(old(dir), backups, Elements(touched))
    {
      for i := 0 to |touched|
        invariant dir == Restored(old(dir), backups, Elements(touched[..i]))
      {
        var name := touched[i];
        OneMoreElement(touched, i);
        OneMoreRestored(old(dir), backups, Elements(touched[..i]), name);
        if name in backups {
          dir := dir[name := backups[name]];
        } else {
          dir := dir - {name};
        }
      }
      assert touched[..|touched|] == touched;
    }

    /** Rename the new files into place, the Corefile last, up to the first that cannot be written; steps are the
        directories after each rename. */
    method WriteAll(files: Files, order: seq<Name>, luck: Luck) returns (ok: bool, ghost steps: seq<Files>)
      requires CorefileLast(files, order)
      modifies this`dir
      ensures Written(old(dir), files, order, luck, steps)
      ensures Elements(order[..|steps|]) <= files.Keys && dir == During(old(dir), files, Elements(order[..|steps|]), {})
      ensures ok ==> dir == During(old(dir), files, files.Keys, {})
      ensures ok <==> files.Keys !! luck.unwritable
      ensures ok <==> |steps| == |order|
    {
      steps := [];
      NothingDone(dir, files);
      for i := 0 to |order|
        invariant |steps| == i && RenamedUpto(old(dir), files, order, luck, steps)
        invariant Elements(order[..i]) <= files.Keys && dir == During(old(dir), files, Elements(order[..i]), {})
      {
        var name := order[i];
        OneMoreElement(order, i);
        if name in luck.unwritable {
          return false, steps;
        }
        OneMoreWrite(old(dir), files, Elements(order[..i]), name);
        dir := dir[name := files[name]];
        steps := OneMoreRename(old(dir), files, order, luck, steps, dir);
      }
      WholePrefix(order);
      ok := true;
    }

    /** Remove the stale files up to the first that cannot be removed; steps are the directories after each removal. */
    method RemoveAll(files: Files, stale: seq<Name>, luck: Luck, ghost was: Files) returns (ok: bool, ghost steps: seq<Files>)
      requires Elements(stale) !! files.Keys && dir == During(was, files, files.Keys, {})
      modifies this`dir
      ensures Emptied(was, files, stale, luck, steps) && dir == During(was, files, files.Keys, Elements(stale[..|steps|]))
      ensures ok ==> dir == During(was, files, files.Keys, Elements(stale))
      ensures ok <==> Elements(stale) !! luck.unremovable
      ensures ok <==> |steps| == |stale|
    {
      steps := [];
      for i := 0 to |stale|
        invariant |steps| == i && EmptiedUpto(was, files, stale, luck, steps)
        invariant dir == During(was, files, files.Keys, Elements(stale[..i]))
      {
        var name := stale[i];
        OneMoreElement(stale, i);
        if name in luck.unremovable {
          return false, steps;
        }
        OneMoreRemoval(was, files, Elements(stale[..i]), name);
        dir := dir - {name};
        steps := AnotherRemoval(was, files, stale, luck, steps, dir);
      }
      WholePrefix(stale);
      ok := true;
    }

    /** Put the new files in place and remove the stale ones; on the first failure, put everything back. */
    method Replace(files: Files, stale: seq<Name>, backups: Files, touched: seq<Name>, luck: Luck) returns (ok: bool, ghost pass: Pass)
      requires COREFILE in files && Elements(stale) == Stale(dir, files)
      requires Elements(touched) == files.Keys + Elements(stale) && backups == Backup(dir, Elements(touched))
      modifies this`dir
      ensures ok <==> files.Keys !! luck.unwritable && Elements(stale) !! luck.unremovable
      ensures dir == if ok then During(old(dir), files, files.Keys, Elements(stale)) else old(dir)
      ensures IsPass(old(dir), files, luck, pass)
    {
      var order := WriteOrder(files);
      ghost var was := dir;
      ghost var renames, removals;
      ok, renames := WriteAll(files, order, luck);
      PrefixElements(order, |renames|);
      if !ok {
        pass := Pass(order, stale, renames, []);
        RollbackUndoes(was, files, Elements(order[..|renames|]), {}, Elements(touched));
        Rollback(backups, touched);
        return;
      }
      ok, removals := RemoveAll(files, stale, luck, was);
      pass := Pass(order, stale, renames, removals);
      PrefixElements(stale, |removals|);
      if !ok {
        RollbackUndoes(was, files, files.Keys, Elements(stale[..|removals|]), Elements(touched));
        Rollback(backups, touched);
      }
    }

    /** The stale managed files. */
    method StaleFiles(files: Files) returns (stale: seq<Name>)
      ensures Elements(stale) == Stale(dir, files) && Distinct(stale)
    {
      stale := [];
      var rest := dir.Keys;
      while rest != {}
        invariant rest <= dir.Keys && Distinct(stale)
        invariant forall name :: name in stale <==> name in dir && name !in rest && IsManaged(name) && name !in files
      {
        var name := Pick(rest);
        if IsManaged(name) && name !in files {
          stale := stale + [name];
        }
        rest := rest - {name};
      }
    }

    // ----- the published snapshot

    /** Write beside the target, then rename; where renaming over a file is refused, remove it and rename again. */
    method Publish(world: World, luck: Luck) returns (ok: bool)
      modifies this`published
      ensures ok <==> Publishable(world, settings, old(published), luck)
      ensures published == if ok then Some(settings) else if PublishedIsLost(world, settings, luck) then None else old(published)
    {
      if world.config(settings).Invalid? || !luck.staged {
        return false;
      }
      if luck.renamed {
        published := Some(settings);
        return true;
      }
      if published.Some? {
        if !luck.cleared {
          return false;
        }
        published := None;
      }
      ok := luck.retried;
      if ok {
        published := Some(settings);
      }
    }

    // ----- the transaction

    /** Before anything is changed: the files are complete, the engine accepts them, and its state can be compared later. */
    method Check(files: Files, world: World, luck: Luck) returns (ok: bool)
      ensures ok <==> Checked(files, world, luck, bootstrapped)
    {
      if !luck.listing {
        return false;
      }
      ok := ValidateGenerated(files);
      if !ok {
        return;
      }
      ok := luck.engine && !(bootstrapped && luck.live.Unreadable?) && world.hash(files[COREFILE]).Some?;
    }

    /** Wait for the engine to report the new configuration, then publish the runtime snapshot. */
    method Confirm(files: Files, changed: bool, world: World, luck: Luck) returns (ok: bool)
      requires COREFILE in files && world.hash(files[COREFILE]).Some?
      modifies this`published
      ensures ok <==> Acknowledged(files, changed, bootstrapped, world, luck) && Publishable(world, settings, old(published), luck)
      ensures ok ==> published == Some(settings)
      ensures ok && (luck.live.Hash? || (bootstrapped && luck.live.Unavailable? && changed)) ==>
        luck.reports(world.hash(files[COREFILE]).value)
      ensures !ok ==>
        published ==
          if Acknowledged(files, changed, bootstrapped, world, luck) && PublishedIsLost(world, settings, luck) then None
          else old(published)
    {
      if luck.live.Hash? || (bootstrapped && luck.live.Unavailable? && changed) {
        if !luck.reports(world.hash(files[COREFILE]).value) {
          return false;
        }
      }
      ok := Publish(world, luck);
    }

    /** Install the files, prepare the gateway for the stored settings, and publish them. */
    method ApplyFiles(files: Files, world: World, luck: Luck) returns (ok: bool, prepared: bool, ghost pass: Option<Pass>)
      requires gateway.Valid()
      modifies this`dir, this`published, this`bootstrapped, gateway
      ensures gateway.Valid() && (prepared ==> Checked(files, world, luck, old(bootstrapped)))
      ensures if prepared then pass.Some? && IsPass(old(dir), files, luck, pass.value) else pass.None?
      ensures ok ==>
        Checked(files, world, luck, old(bootstrapped)) && Installed(old(dir), files, dir) && published == Some(settings) && bootstrapped
      ensures ok ==> Serving(gateway.state) == Wanted(world.config(settings))
      ensures ok <==>
        && Checked(files, world, luck, old(bootstrapped)) && prepared
        && Goes(old(dir), files, old(bootstrapped), settings, old(published), world, luck)
      ensures ok && luck.live.Hash? ==> luck.reports(world.hash(files[COREFILE]).value)
      ensures ok && old(bootstrapped) && luck.live.Unavailable? ==>
        world.hash(TextOf(old(dir), COREFILE)) == world.hash(files[COREFILE]) || luck.reports(world.hash(files[COREFILE]).value)
      ensures !ok ==> dir == old(dir) && bootstrapped == old(bootstrapped)
      ensures !ok ==>
        published == if prepared && Loses(old(dir), files, old(bootstrapped), settings, world, luck) then None else old(published)
      ensures prepared ==> gateway.previous == old(gateway.state)
      ensures Checked(files, world, luck, old(bootstrapped)) && Reloads(world.config(settings), world.valid) ==> prepared
      ensures !prepared ==> !ok && gateway.state == old(gateway.state)
    {
      prepared, pass := false, None;
      ok := Check(files, world, luck);
      if !ok {
        return;
      }
      var stale, touched, backups := Stage(files);
      prepared := gateway.ReloadConfig(world.config(settings), world.valid);
      if !prepared {
        return false, prepared, pass;
      }
      ghost var forward;
      ok, forward := Commit(files, stale, touched, backups, world, luck);
      pass := Some(forward);
    }

    /** Render and install. On an error the files, the gateway's clients and the settings are as before, and so is the
        published snapshot unless it was lost while being replaced. */
    method Apply(rendered: Option<Files>, world: World, luck: Luck) returns (ok: bool, ghost pass: Option<Pass>)
      requires gateway.Valid()
      modifies this`dir, this`published, this`bootstrapped, gateway
      ensures gateway.Valid()
      ensures pass.Some? ==> rendered.Some? && Deployable(rendered.value) && IsPass(old(dir), rendered.value, luck, pass.value)
      ensures ok ==> pass.Some?
      ensures ok ==>
        && rendered.Some? && Checked(rendered.value, world, luck, old(bootstrapped)) && Installed(old(dir), rendered.value, dir)
        && published == Some(settings) && bootstrapped
      ensures ok && luck.live.Hash? ==> luck.reports(world.hash(rendered.value[COREFILE]).value)
      ensures ok && old(bootstrapped) && luck.live.Unavailable? ==>
        || world.hash(TextOf(old(dir), COREFILE)) == world.hash(rendered.value[COREFILE])
        || luck.reports(world.hash(rendered.value[COREFILE]).value)
      ensures ok ==> Serving(gateway.state) == Wanted(world.config(settings))
      ensures !ok ==> dir == old(dir) && gateway.state == old(gateway.state) && bootstrapped == old(bootstrapped)
      ensures rendered.None? ==> published == old(published)
      ensures !ok ==> published == old(published) || published == None
      ensures rendered.Some? && Reloads(world.config(settings), world.valid) ==>
        (Loses(old(dir), rendered.value, old(bootstrapped), settings, world, luck) ==> !ok && published == None)
      ensures rendered.Some? && !Loses(old(dir), rendered.value, old(bootstrapped), settings, world, luck) ==>
        ok || published == old(published)
      ensures rendered.Some? && Checked(rendered.value, world, luck, old(bootstrapped)) && Reloads(world.config(settings), world.valid) ==>
        (ok <==> Goes(old(dir), rendered.value, old(bootstrapped), settings, old(published), world, luck))
    {
      pass := None;
      if rendered.None? {
        return false, pass;
      }
      var prepared;
      ok, prepared, pass := ApplyFiles(rendered.value, world, luck);
      if !ok && prepared {
        gateway.RestorePrevious();
      }
    }

    /** Install what a controller rendered. On an error the transport settings are put back too, if they can be, and the
        gateway is reloaded from what is stored then. */
    method ApplyReplica(files: Files, wanted: Settings, world: World, luck: Luck) returns (ok: bool, ghost pass: Option<Pass>)
      requires gateway.Valid()
      modifies this, gateway
      ensures gateway.Valid() && (ok ==> pass.Some?)
      ensures pass.Some? ==> Deployable(files) && IsPass(old(dir), files, luck, pass.value)
      ensures ok ==>
        && Replicable(files) && Checked(files, world, luck, old(bootstrapped)) && Installed(old(dir), files, dir)
        && settings == wanted && published == Some(wanted) && bootstrapped
      ensures ok && luck.live.Hash? ==> luck.reports(world.hash(files[COREFILE]).value)
      ensures ok && old(bootstrapped) && luck.live.Unavailable? ==>
        world.hash(TextOf(old(dir), COREFILE)) == world.hash(files[COREFILE]) || luck.reports(world.hash(files[COREFILE]).value)
      ensures ok ==> Serving(gateway.state) == Wanted(world.config(wanted))
      ensures !ok ==> dir == old(dir) && bootstrapped == old(bootstrapped)
      ensures !ok && !Loses(old(dir), files, old(bootstrapped), wanted, world, luck) ==> published == old(published)
      ensures !ok ==> published == old(published) || published == None
      ensures Stored(files, wanted, world, luck) && Reloads(world.config(wanted), world.valid) ==>
        && (ok <==> && Checked(files, world, luck, old(bootstrapped))
                    && Goes(old(dir), files, old(bootstrapped), wanted, old(published), world, luck))
        && (Loses(old(dir), files, old(bootstrapped), wanted, world, luck) ==> !ok && published == None)
      ensures !ok ==>
        settings == if Stored(files, wanted, world, luck) && !PutsBack(old(settings), world, luck) then wanted else old(settings)
      ensures !Stored(files, wanted, world, luck) ==> !ok && gateway.state == old(gateway.state)
      ensures !ok && PutsBack(old(settings), world, luck) && InSync(old(gateway.state), world.config(old(settings))) ==>
        gateway.state == old(gateway.state)
      ensures !ok && Stored(files, wanted, world, luck) && Reloads(world.config(settings), world.valid) ==>
        Serving(gateway.state) == Wanted(world.config(settings)) && gateway.state.Some?
      ensures !ok && Stored(files, wanted, world, luck) && PutsBack(old(settings), world, luck) ==>
        (Reloads(world.config(old(settings)), world.valid) && Unambiguous(old(gateway.state)) ==>
          (gateway.state == old(gateway.state) <==> InSync(old(gateway.state), world.config(old(settings)))))
    {
      pass := None;
      ok := ValidateReplica(files);
      if !ok || !world.acceptable(wanted) || !luck.stored {
        return false, pass;
      }
      ok, pass := InstallReplica(files, wanted, world, luck);
    }

    /** The same once files and settings are accepted. */
    method InstallReplica(files: Files, wanted: Settings, world: World, luck: Luck) returns (ok: bool, ghost pass: Option<Pass>)
      requires gateway.Valid()
      modifies this, gateway
      ensures gateway.Valid() && (ok ==> pass.Some?)
      ensures pass.Some? ==> Deployable(files) && IsPass(old(dir), files, luck, pass.value)
      ensures ok ==>
        && Checked(files, world, luck, old(bootstrapped)) && Installed(old(dir), files, dir)
        && settings == wanted && published == Some(wanted) && bootstrapped
      ensures ok && luck.live.Hash? ==> luck.reports(world.hash(files[COREFILE]).value)
      ensures ok && old(bootstrapped) && luck.live.Unavailable? ==>
        world.hash(TextOf(old(dir), COREFILE)) == world.hash(files[COREFILE]) || luck.reports(world.hash(files[COREFILE]).value)
      ensures ok ==> Serving(gateway.state) == Wanted(world.config(wanted))
      ensures !ok ==> dir == old(dir) && bootstrapped == old(bootstrapped)
      ensures !ok && !Loses(old(dir), files, old(bootstrapped), wanted, world, luck) ==> published == old(published)
      ensures !ok ==> published == old(published) || published == None
      ensures Reloads(world.config(wanted), world.valid) ==>
        && (ok <==> && Checked(files, world, luck, old(bootstrapped))
                    && Goes(old(dir), files, old(bootstrapped), wanted, old(published), world, luck))
        && (Loses(old(dir), files, old(bootstrapped), wanted, world, luck) ==> !ok && published == None)
      ensures !ok ==> settings == if PutsBack(old(settings), world, luck) then old(settings) else wanted
      ensures !ok && PutsBack(old(settings), world, luck) && InSync(old(gateway.state), world.config(old(settings))) ==>
        gateway.state == old(gateway.state)
      ensures !ok && Reloads(world.config(settings), world.valid) ==>
        Serving(gateway.state) == Wanted(world.config(settings)) && gateway.state.Some?
      ensures !ok && PutsBack(old(settings), world, luck) ==>
        (Reloads(world.config(old(settings)), world.valid) && Unambiguous(old(gateway.state)) ==>
          (gateway.state == old(gateway.state) <==> InSync(old(gateway.state), world.config(old(settings)))))
    {
      var previous := settings;
      settings := wanted;
      var prepared;
      ok, prepared, pass := ApplyFiles(files, world, luck);
      if !ok {
        Unprepare(prepared, previous, world, luck);
      }
    }

    /** Back to the earlier generation and settings, as far as they can be put back, and reload from what is stored then. */
    method Unprepare(prepared: bool, before: Settings, world: World, luck: Luck)
      requires gateway.Valid()
      modifies this`settings, gateway
      ensures gateway.Valid()
      ensures settings == if PutsBack(before, world, luck) then before else old(settings)
      ensures var earlier := if prepared then old(gateway.previous) else old(gateway.state);
        PutsBack(before, world, luck) && InSync(earlier, world.config(before)) ==> gateway.state == earlier
      ensures Reloads(world.config(settings), world.valid) ==>
        Serving(gateway.state) == Wanted(world.config(settings)) && gateway.state.Some?
    {
      if prepared {
        gateway.RestorePrevious();
      }
      if world.acceptable(before) && luck.putBack {
        settings := before;
      }
      var reloaded := gateway.ReloadConfig(world.config(settings), world.valid);
    }

    method Stage(files: Files) returns (stale: seq<Name>, touched: seq<Name>, backups: Files)
      requires COREFILE in files
      ensures Elements(stale) == Stale(dir, files) && Elements(touched) == files.Keys + Elements(stale)
      ensures backups == Backup(dir, Elements(touched))
    {
      stale := StaleFiles(files);
      var names := FileNames(files);
      touched := names + stale;
      assert Elements(touched) == Elements(names) + Elements(stale);
      backups := Snapshot(touched);
    }

    method Commit(files: Files, stale: seq<Name>, touched: seq<Name>, backups: Files, world: World, luck: Luck)
        returns (ok: bool, ghost pass: Pass)
      requires Checked(files, world, luck, bootstrapped)
      requires Elements(stale) == Stale(dir, files) && Elements(touched) == files.Keys + Elements(stale)
      requires backups == Backup(dir, Elements(touched))
      modifies this`dir, this`published, this`bootstrapped
      ensures IsPass(old(dir), files, luck, pass)
      ensures ok ==> Installed(old(dir), files, dir) && published == Some(settings) && bootstrapped
      ensures ok <==> Goes(old(dir), files, old(bootstrapped), settings, old(published), world, luck)
      ensures !ok ==> dir == old(dir) && bootstrapped == old(bootstrapped)
      ensures !ok ==> published == if Loses(old(dir), files, old(bootstrapped), settings, world, luck) then None else old(published)
    {
      ghost var was := dir;
      var changed := world.hash(TextOf(backups, COREFILE)) != world.hash(files[COREFILE]);
      BackupText(dir, Elements(touched));
      ok, pass := Replace(files, stale, backups, touched, luck);
      if ok {
        ok := Settle(files, touched, backups, changed, world, luck, was);
      }
    }

    /** The files are in place: keep them if the engine and the published snapshot follow, else put the old ones back. */
    method Settle(files: Files, touched: seq<Name>, backups: Files, changed: bool, world: World, luck: Luck, ghost was: Files)
        returns (ok: bool)
      requires COREFILE in files && world.hash(files[COREFILE]).Some? && dir == During(was, files, files.Keys, Stale(was, files))
      requires Elements(touched) == files.Keys + Stale(was, files) && backups == Backup(was, Elements(touched))
      modifies this`dir, this`published, this`bootstrapped
      ensures ok <==> Acknowledged(files, changed, old(bootstrapped), world, luck) && Publishable(world, settings, old(published), luck)
      ensures ok ==> Installed(was, files, dir) && published == Some(settings) && bootstrapped
      ensures !ok ==> dir == was && bootstrapped == old(bootstrapped)
      ensures !ok && Acknowledged(files, changed, old(bootstrapped), world, luck) && PublishedIsLost(world, settings, luck) ==>
        published == None
      ensures !ok && !(Acknowledged(files, changed, old(bootstrapped), world, luck) && PublishedIsLost(world, settings, luck)) ==>
        published == old(published)
    {
      ok := Confirm(files, changed, world, luck);
      if ok {
        CompletePassInstalls(was, files);
        bootstrapped := true;
      } else {
        RollbackUndoes(was, files, files.Keys, Stale(was, files), Elements(touched));
        Rollback(backups, touched);
      }
    }
  }

  /** The gateway serves what the stored settings ask for. */
  predicate InSync(state: Generation, config: Config) {
    state.Some? && Unambiguous(state) && Serving(state) == Wanted(config)
  }

  /** Nothing about the configuration keeps the gateway from taking it. */
  ghost predicate Reloads(config: Config, valid: Endpoint -> bool) {
    config.Standard? || (config.Encrypted? && forall e :: e in config.endpoints ==> valid(e))
  }

  /** The endpoints a gateway serves for a configuration. */
  function Wanted(config: Config): seq<Endpoint> {
    if config.Encrypted? then config.endpoints else []
  }

  /** The replica got as far as storing the controller's transport settings. */
  ghost predicate Stored(files: Files, wanted: Settings, world: World, luck: Luck) {
    Replicable(files) && world.acceptable(wanted) && luck.stored
  }

  /** The settings before can be stored again: they pass the check made on writing, and the transaction commits. */
  predicate PutsBack(before: Settings, world: World, luck: Luck) {
    world.acceptable(before) && luck.putBack
  }

  /** The engine's report is awaited when it could be read before, or when it should appear now. */
  predicate Acknowledged(files: Files, changed: bool, bootstrapped: bool, world: World, luck: Luck)
    requires COREFILE in files && world.hash(files[COREFILE]).Some?
  {
    luck.live.Hash? || (bootstrapped && luck.live.Unavailable? && changed) ==> luck.reports(world.hash(files[COREFILE]).value)
  }

  predicate Publishable(world: World, settings: Settings, published: Option<Settings>, luck: Luck) {
    && !world.config(settings).Invalid? && luck.staged
    && (luck.renamed || ((luck.cleared || published.None?) && luck.retried))
  }

  /** Nothing goes wrong after the gateway was prepared. */
  predicate Goes(dir: Files, files: Files, bootstrapped: bool, settings: Settings, published: Option<Settings>, world: World, luck: Luck)
    requires COREFILE in files && world.hash(files[COREFILE]).Some?
  {
    && files.Keys !! luck.unwritable
    && Stale(dir, files) !! luck.unremovable
    && Acknowledged(files, world.hash(TextOf(dir, COREFILE)) != world.hash(files[COREFILE]), bootstrapped, world, luck)
    && Publishable(world, settings, published, luck)
  }

  /** Everything goes well up to the second attempt at renaming the published snapshot. */
  predicate Loses(dir: Files, files: Files, bootstrapped: bool, settings: Settings, world: World, luck: Luck) {
    && Checked(files, world, luck, bootstrapped)
    && files.Keys !! luck.unwritable
    && Stale(dir, files) !! luck.unremovable
    && Acknowledged(files, world.hash(TextOf(dir, COREFILE)) != world.hash(files[COREFILE]), bootstrapped, world, luck)
    && PublishedIsLost(world, settings, luck)
  }

  /** The old snapshot was removed to make room and the new one could not take its place. */
  predicate PublishedIsLost(world: World, settings: Settings, luck: Luck) {
    !world.config(settings).Invalid? && luck.staged && !luck.renamed && luck.cleared && !luck.retried
  }

  predicate Checked(files: Files, world: World, luck: Luck, bootstrapped: bool) {
    && luck.listing && luck.engine && Deployable(files)
    && !(bootstrapped && luck.live.Unreadable?)
    && world.hash(files[COREFILE]).Some?
  }

  /** What success asks of the surroundings, in full: the directory can be listed, the engine takes the files, its state can be
      read once it runs, every file can be written and every stale one removed, a running engine reports the new
      configuration (one whose report was not available before only if the Corefile changed), and the snapshot gets into
      place. */
  lemma SuccessIs(dir: Files, files: Files, bootstrapped: bool, settings: Settings, published: Option<Settings>, world: World, luck: Luck)
    requires Deployable(files) && world.hash(files[COREFILE]).Some?
    ensures var corefile := if COREFILE in dir then dir[COREFILE] else "";
      Checked(files, world, luck, bootstrapped) && Goes(dir, files, bootstrapped, settings, published, world, luck) <==>
        && luck.listing && luck.engine && (bootstrapped ==> luck.live != Unreadable)
        && (forall name :: name in files ==> name !in luck.unwritable)
        && (forall name :: name in dir && IsManaged(name) && name !in files ==> name !in luck.unremovable)
        && (luck.live.Hash? ==> luck.reports(world.hash(files[COREFILE]).value))
        && (luck.live.Unavailable? && bootstrapped && world.hash(corefile) != world.hash(files[COREFILE]) ==>
              luck.reports(world.hash(files[COREFILE]).value))
        && !world.config(settings).Invalid? && luck.staged
        && (luck.renamed || (luck.retried && (luck.cleared || published == None)))
  {
  }

  /** Where the published snapshot is lost, in full: all goes well until the first rename is refused, then it is removed, and
      the second rename is refused too. */
  lemma LossIs(dir: Files, files: Files, bootstrapped: bool, settings: Settings, world: World, luck: Luck)
    ensures Loses(dir, files, bootstrapped, settings, world, luck) <==>
      && Checked(files, world, luck, bootstrapped)
      && Goes(dir, files, bootstrapped, settings, None, world, luck.(renamed := true))
      && !luck.renamed && luck.cleared && !luck.retried
  {
  }

  /** All names once, the Corefile first: upper-case letters sort before the lower-case ones of every hosts file. */
  method FileNames(files: Files) returns (names: seq<Name>)
    requires COREFILE in files
    ensures Elements(names) == files.Keys && Distinct(names) && names != [] && names[0] == COREFILE
  {
    names := [COREFILE];
    var rest := files.Keys - {COREFILE};
    while rest != {}
      invariant rest <= files.Keys && Elements(names) == files.Keys - rest
      invariant Distinct(names) && names != [] && names[0] == COREFILE
    {
      var name := Pick(rest);
      assert name !in Elements(names);
      assert Elements(names + [name]) == Elements(names) + {name};
      names := names + [name];
      rest := rest - {name};
    }
  }

  method WriteOrder(files: Files) returns (order: seq<Name>)
    requires COREFILE in files
    ensures CorefileLast(files, order) && Distinct(order)
  {
    order := FileNames(files);
    if |order| > 1 {
      MovedLast(order);
      order := order[1..] + [COREFILE];
    }
  }

  lemma MovedLast(names: seq<Name>)
    requires Distinct(names) && names != []
    ensures var moved := names[1..] + [names[0]]; Distinct(moved) && Elements(moved) == Elements(names)
  {
  }

  // ----- steps of the forward pass

  /** The directories after each rename, up to the first that fails. */
  ghost predicate Written(was: Files, files: Files, order: seq<Name>, luck: Luck, steps: seq<Files>)
    requires Elements(order) == files.Keys
  {
    RenamedUpto(was, files, order, luck, steps) && (|steps| < |order| ==> order[|steps|] in luck.unwritable)
  }

  ghost predicate RenamedUpto(was: Files, files: Files, order: seq<Name>, luck: Luck, steps: seq<Files>)
    requires Elements(order) == files.Keys
  {
    && |steps| <= |order|
    && (forall k :: 0 <= k < |steps| ==> order[k] !in luck.unwritable)
    && (forall k {:trigger steps[k]} :: 0 <= k < |steps| ==> AfterRename(was, files, order, k, steps[k]))
  }

  lemma OneMoreRename(was: Files, files: Files, order: seq<Name>, luck: Luck, steps: seq<Files>, d: Files) returns (more: seq<Files>)
    requires Elements(order) == files.Keys && |steps| < |order| && RenamedUpto(was, files, order, luck, steps)
    requires order[|steps|] !in luck.unwritable && AfterRename(was, files, order, |steps|, d)
    ensures more == steps + [d] && RenamedUpto(was, files, order, luck, more)
  {
    more := steps + [d];
  }

  ghost predicate AfterRename(was: Files, files: Files, order: seq<Name>, k: nat, d: Files)
    requires Elements(order) == files.Keys && k < |order|
  {
    PrefixElements(order, k + 1);
    d == During(was, files, Elements(order[..k + 1]), {})
  }

  ghost predicate AfterRemoval(was: Files, files: Files, stale: seq<Name>, k: nat, d: Files)
    requires k < |stale|
  {
    d == During(was, files, files.Keys, Elements(stale[..k + 1]))
  }

  /** The directories after each removal, up to the first that fails. */
  ghost predicate Emptied(was: Files, files: Files, stale: seq<Name>, luck: Luck, steps: seq<Files>) {
    EmptiedUpto(was, files, stale, luck, steps) && (|steps| < |stale| ==> stale[|steps|] in luck.unremovable)
  }

  ghost predicate EmptiedUpto(was: Files, files: Files, stale: seq<Name>, luck: Luck, steps: seq<Files>) {
    && |steps| <= |stale|
    && (forall k :: 0 <= k < |steps| ==> stale[k] !in luck.unremovable)
    && (forall k {:trigger steps[k]} :: 0 <= k < |steps| ==> AfterRemoval(was, files, stale, k, steps[k]))
  }

  lemma AnotherRemoval(was: Files, files: Files, stale: seq<Name>, luck: Luck, steps: seq<Files>, d: Files) returns (more: seq<Files>)
    requires |steps| < |stale| && EmptiedUpto(was, files, stale, luck, steps)
    requires stale[|steps|] !in luck.unremovable && AfterRemoval(was, files, stale, |steps|, d)
    ensures more == steps + [d] && EmptiedUpto(was, files, stale, luck, more)
  {
    more := steps + [d];
  }

  /** A forward pass: the names in the order they are written and removed, and the directories after each rename and, if
      all went well, after each removal. */
  datatype Pass = Pass(order: seq<Name>, stale: seq<Name>, renames: seq<Files>, removals: seq<Files>)

  /** The Corefile is written last, stale files are removed after it, and the pass goes on up to the first failure. */
  ghost predicate IsPass(was: Files, files: Files, luck: Luck, pass: Pass) {
    && CorefileLast(files, pass.order) && Elements(pass.stale) == Stale(was, files)
    && Written(was, files, pass.order, luck, pass.renames)
    && if |pass.renames| < |pass.order| then pass.removals == [] else Emptied(was, files, pass.stale, luck, pass.removals)
  }

  /** Crash-consistent replacement: after every single rename and every removal, every hosts file named by the Corefile on
      disk exists. */
  lemma EveryPassStaysClosed(was: Files, files: Files, luck: Luck, pass: Pass)
    requires IsPass(was, files, luck, pass) && Closed(was) && Deployable(files)
    ensures forall k :: 0 <= k < |pass.renames| ==> Closed(pass.renames[k])
    ensures forall k :: 0 <= k < |pass.removals| ==> Closed(pass.removals[k])
  {
    forall k | 0 <= k < |pass.renames|
      ensures Closed(pass.renames[k])
    {
      RenameStaysClosed(was, files, pass.order, k, pass.renames[k]);
    }
    forall k | 0 <= k < |pass.removals|
      ensures Closed(pass.removals[k])
    {
      RemovalStaysClosed(was, files, pass.stale, k, pass.removals[k]);
    }
  }

  lemma RenameStaysClosed(was: Files, files: Files, order: seq<Name>, k: nat, d: Files)
    requires CorefileLast(files, order) && k < |order| && AfterRename(was, files, order, k, d) && Closed(was) && Deployable(files)
    ensures Closed(d)
  {
    LastOne(files, order, k);
    ForwardPassStaysClosed(was, files, Elements(order[..k + 1]), {});
  }

  lemma RemovalStaysClosed(was: Files, files: Files, stale: seq<Name>, k: nat, d: Files)
    requires Elements(stale) == Stale(was, files) && k < |stale| && AfterRemoval(was, files, stale, k, d)
    requires Closed(was) && Deployable(files)
    ensures Closed(d)
  {
    PrefixElements(stale, k + 1);
    ForwardPassStaysClosed(was, files, files.Keys, Elements(stale[..k + 1]));
  }

  lemma WholePrefix<T>(s: seq<T>)
    ensures s[..|s|] == s
  {
  }

  lemma PrefixElements<T>(s: seq<T>, n: nat)
    requires n <= |s|
    ensures Elements(s[..n]) <= Elements(s)
  {
  }

  /** The points of a rollback are those whose closure RollbackIsClosedExactlyWhen decides. */
  lemma RollbackPoint(dir: Files, files: Files, done: set<Name>, gone: set<Name>, touched: set<Name>, restored: set<Name>)
    requires done <= files.Keys && done <= touched && gone <= touched && restored <= touched
    ensures Restored(During(dir, files, done, gone), Backup(dir, touched), restored) == During(dir, files, done - restored, gone - restored)
  {
  }

  predicate CorefileLast(files: Files, order: seq<Name>) {
    && Elements(order) == files.Keys && order != [] && order[|order| - 1] == COREFILE
    && forall i :: 0 <= i < |order| - 1 ==> order[i] != COREFILE
  }

  lemma BackupText(dir: Files, names: set<Name>)
    requires COREFILE in names
    ensures TextOf(Backup(dir, names), COREFILE) == TextOf(dir, COREFILE)
  {
  }

  lemma NothingDone(dir: Files, files: Files)
    ensures During(dir, files, {}, {}) == dir
  {
  }

  lemma OneMoreWrite(dir: Files, files: Files, done: set<Name>, name: Name)
    requires done <= files.Keys && name in files
    ensures During(dir, files, done, {})[name := files[name]] == During(dir, files, done + {name}, {})
  {
  }

  lemma OneMoreRemoval(dir: Files, files: Files, gone: set<Name>, name: Name)
    ensures During(dir, files, files.Keys, gone) - {name} == During(dir, files, files.Keys, gone + {name})
  {
  }

  lemma OneMoreRestored(dir: Files, backups: Files, touched: set<Name>, name: Name)
    ensures Restored(dir, backups, touched + {name}) ==
      if name in backups then Restored(dir, backups, touched)[name := backups[name]] else Restored(dir, backups, touched) - {name}
  {
  }

  lemma OneMoreElement<T>(s: seq<T>, i: nat)
    requires i < |s|
    ensures s[i] in Elements(s) && Elements(s[..i + 1]) == Elements(s[..i]) + {s[i]}
  {
    assert s[..i + 1] == s[..i] + [s[i]];
  }

  lemma LastOne(files: Files, order: seq<Name>, i: nat)
    requires CorefileLast(files, order) && i < |order|
    ensures InOrder(files, Elements(order[..i + 1]), {})
  {
    if COREFILE in order[..i + 1] {
      var k :| 0 <= k < i + 1 && order[k] == COREFILE;
      assert k == |order| - 1;
      assert order[..i + 1] == order;
    }
  }

  function Elements<T>(s: seq<T>): set<T> {
    set x | x in s
  }

  predicate Distinct<T(==)>(s: seq<T>) {
    forall i, j :: 0 <= i < j < |s| ==> s[i] != s[j]
  }
}
