/** The text of a Corefile, the hosts files it names, and what a set of generated files must satisfy. */
module Corefile {
  import opened Basics

  type Name = string
  type Files = map<Name, string>

  const COREFILE: Name := "Corefile"
  const PATH_PREFIX: string := "/etc/coredns/"
  const MAX_BYTES: nat := 536870912

  // ----- fields and lines

  /** White space as strings.Fields sees it. */
  predicate IsSpace(c: char) {
    || c == ' ' || '\t' <= c <= '\r' || c == '\U{0085}' || c == '\U{00A0}' || c == '\U{1680}' || '\U{2000}' <= c <= '\U{200A}'
    || c == '\U{2028}' || c == '\U{2029}' || c == '\U{202F}' || c == '\U{205F}' || c == '\U{3000}'
  }

  function SkipSpace(s: string, i: nat): (j: nat)
    requires i <= |s|
    ensures i <= j <= |s| && (j < |s| ==> !IsSpace(s[j]))
    decreases |s| - i
  {
    if i < |s| && IsSpace(s[i]) then SkipSpace(s, i + 1) else i
  }

  function WordEnd(s: string, i: nat): (j: nat)
    requires i <= |s|
    ensures i <= j <= |s| && (i < |s| && !IsSpace(s[i]) ==> i < j)
    decreases |s| - i
  {
    if i < |s| && !IsSpace(s[i]) then WordEnd(s, i + 1) else i
  }

  function Fields(s: string, i: nat): seq<string>
    requires i <= |s|
    decreases |s| - i
  {
    var b := SkipSpace(s, i);
    if b == |s| then [] else [s[b..WordEnd(s, b)]] + Fields(s, WordEnd(s, b))
  }

  function LineEnd(s: string, i: nat): (j: nat)
    requires i <= |s|
    ensures i <= j <= |s| && (j < |s| ==> s[j] == '\n')
    decreases |s| - i
  {
    if i < |s| && s[i] != '\n' then LineEnd(s, i + 1) else i
  }

  // ----- references

  datatype Reference = NoReference | UnsafeReference | Reference(name: Name)

  /** filepath.Base leaves the name as it is. */
  predicate IsBaseName(name: Name) {
    name == "/" || (name != "" && '/' !in name)
  }

  predicate EndsWith(s: string, suffix: string) {
    |suffix| <= |s| && s[|s| - |suffix|..] == suffix
  }

  predicate SafeName(name: Name) {
    IsBaseName(name) && EndsWith(name, ".hosts")
  }

  function FieldReference(fields: seq<string>): Reference {
    if |fields| < 2 || fields[0] != "hosts" || !(PATH_PREFIX <= fields[1]) then NoReference
    else if !SafeName(fields[1][|PATH_PREFIX|..]) then UnsafeReference
    else Reference(fields[1][|PATH_PREFIX|..])
  }

  function LineReference(line: string): Reference {
    FieldReference(Fields(line, 0))
  }

  function WithReference(r: Reference, rest: Option<set<Name>>): Option<set<Name>> {
    match r
    case NoReference => rest
    case UnsafeReference => None
    case Reference(name) => if rest.None? then None else Some({name} + rest.value)
  }

  /** The hosts files a Corefile names; None if one of the names is unsafe. */
  function References(text: string): (r: Option<set<Name>>)
    ensures r.Some? ==> forall name :: name in r.value ==> SafeName(name)
    decreases |text|
  {
    var e := LineEnd(text, 0);
    WithReference(LineReference(text[..e]), if e == |text| then Some({}) else References(text[e + 1..]))
  }

  function Also(seen: set<Name>, rest: Option<set<Name>>): Option<set<Name>> {
    if rest.None? then None else Some(seen + rest.value)
  }

  function Rest(text: string): Option<set<Name>> {
    var e := LineEnd(text, 0);
    if e == |text| then Some({}) else References(text[e + 1..])
  }

  lemma OneLine(seen: set<Name>, text: string)
    ensures var r := LineReference(text[..LineEnd(text, 0)]);
      Also(seen, References(text)) ==
        if r.UnsafeReference? then None else Also(seen + (if r.Reference? then {r.name} else {}), Rest(text))
  {
    var r, rest := LineReference(text[..LineEnd(text, 0)]), Rest(text);
    assert References(text) == WithReference(r, rest);
    if rest.Some? {
      assert r.Reference? ==> seen + ({r.name} + rest.value) == (seen + {r.name}) + rest.value;
      assert seen + {} == seen;
    }
  }

  method HostFiles(text: string) returns (names: Option<set<Name>>)
    ensures names == References(text)
  {
    var seen: set<Name> := {};
    ghost var found := References(text);
    var rest, more := text, true;
    assert found.Some? ==> seen + found.value == found.value;
    while more
      invariant found == Also(seen, if more then References(rest) else Some({}))
      decreases |rest|, more
    {
      var e := LineEnd(rest, 0);
      var r := LineReference(rest[..e]);
      OneLine(seen, rest);
      if r.UnsafeReference? {
        return None;
      }
      if r.Reference? {
        seen := seen + {r.name};
      }
      more := e < |rest|;
      if more {
        rest := rest[e + 1..];
      }
    }
    assert seen + {} == seen;
    names := Some(seen);
  }

  // ----- the same, line by line

  function Lines(text: string): (lines: seq<string>)
    decreases |text|
  {
    var e := LineEnd(text, 0);
    [text[..e]] + if e == |text| then [] else Lines(text[e + 1..])
  }

  /** The line names this hosts file: its first two fields are the keyword and the path. */
  predicate NamesFile(line: string, name: Name) {
    var fields := Fields(line, 0);
    |fields| >= 2 && fields[0] == "hosts" && fields[1] == "/etc/coredns/" + name
  }

  /** A name that may be installed: it ends with .hosts and has no directory in it. */
  predicate MayBeInstalled(name: Name) {
    |name| >= 6 && name[|name| - 6..] == ".hosts" && '/' !in name
  }

  ghost predicate NamesBadFile(line: string) {
    exists n :: NamesFile(line, n) && !MayBeInstalled(n)
  }

  ghost predicate SomeLineNames(lines: seq<string>, name: Name) {
    exists line :: line in lines && NamesFile(line, name)
  }

  ghost predicate SomeLineNamesBadFile(lines: seq<string>) {
    exists line :: line in lines && NamesBadFile(line)
  }

  lemma FirstLineNames(first: string, rest: seq<string>, name: Name)
    ensures SomeLineNames([first] + rest, name) <==> NamesFile(first, name) || SomeLineNames(rest, name)
    ensures SomeLineNamesBadFile([first] + rest) <==> NamesBadFile(first) || SomeLineNamesBadFile(rest)
  {
    assert first in [first] + rest;
  }

  lemma LineIsReference(line: string, name: Name)
    ensures LineReference(line) == Reference(name) <==> NamesFile(line, name) && MayBeInstalled(name)
    ensures LineReference(line) == UnsafeReference <==> NamesBadFile(line)
    ensures LineReference(line).Reference? ==> NamesFile(line, LineReference(line).name)
  {
    var fields := Fields(line, 0);
    SafeNameIs(name);
    if |fields| >= 2 && fields[0] == "hosts" && PATH_PREFIX <= fields[1] {
      var rest := fields[1][|PATH_PREFIX|..];
      assert fields[1] == "/etc/coredns/" + rest;
      SafeNameIs(rest);
      forall n | NamesFile(line, n)
        ensures n == rest
      {
        assert ("/etc/coredns/" + n)[|PATH_PREFIX|..] == n;
      }
    }
  }

  lemma SafeNameIs(name: Name)
    ensures SafeName(name) <==> MayBeInstalled(name)
  {
  }

  /** Which files a text names: exactly those some line names, unless a line names one that may not be installed. */
  lemma {:induction false} ReferencesAre(text: string, name: Name)
    ensures References(text).None? <==> SomeLineNamesBadFile(Lines(text))
    ensures References(text).Some? ==> (name in References(text).value <==> SomeLineNames(Lines(text), name))
    decreases |text|
  {
    var e := LineEnd(text, 0);
    var rest: seq<string> := if e == |text| then [] else Lines(text[e + 1..]);
    if e < |text| {
      ReferencesAre(text[e + 1..], name);
    }
    LineAdds(text[..e], rest, Rest(text), name);
  }

  lemma LineAdds(first: string, rest: seq<string>, found: Option<set<Name>>, name: Name)
    requires found.None? <==> SomeLineNamesBadFile(rest)
    requires found.Some? ==> (name in found.value <==> SomeLineNames(rest, name))
    ensures var all := WithReference(LineReference(first), found);
      && (all.None? <==> SomeLineNamesBadFile([first] + rest))
      && (all.Some? ==> (name in all.value <==> SomeLineNames([first] + rest, name)))
  {
    LineIsReference(first, name);
    FirstLineNames(first, rest, name);
    OneName(first, name);
  }

  /** A line that names a file that may be installed names no other. */
  lemma OneName(line: string, name: Name)
    ensures LineReference(line).Reference? ==> (NamesFile(line, name) <==> LineReference(line).name == name)
    ensures LineReference(line).NoReference? ==> !NamesFile(line, name)
  {
    LineIsReference(line, name);
    if NamesFile(line, name) {
      assert ("/etc/coredns/" + name)[|PATH_PREFIX|..] == name;
    }
  }

  // ----- a set of generated files

  predicate IsAt(s: string, i: int, word: string) {
    0 <= i <= |s| - |word| && s[i..i + |word|] == word
  }

  predicate Contains(s: string, word: string) {
    exists i :: 0 <= i <= |s| - |word| && IsAt(s, i, word)
  }

  function TextOf(files: Files, name: Name): string {
    if name in files then files[name] else ""
  }

  predicate HasBlocks(corefile: string) {
    Contains(corefile, ".:53") && Contains(corefile, "forward .")
  }

  /** The Corefile serves and forwards, and the hosts files are exactly the ones it names. */
  predicate Deployable(files: Files) {
    && COREFILE in files
    && HasBlocks(files[COREFILE])
    && References(files[COREFILE]).Some?
    && References(files[COREFILE]).value != {}
    && files.Keys == References(files[COREFILE]).value + {COREFILE}
  }

  /** What is asked of a set of files, in full. */
  lemma DeployableIs(files: Files)
    ensures Deployable(files) <==>
      && "Corefile" in files
      && (exists a, b :: files["Corefile"] == a + ".:53" + b)
      && (exists a, b :: files["Corefile"] == a + "forward ." + b)
      && References(files["Corefile"]).Some? && References(files["Corefile"]).value != {}
      && (forall name :: name in References(files["Corefile"]).value ==> name in files)
      && (forall name :: name in files && name != "Corefile" ==> name in References(files["Corefile"]).value)
  {
    if "Corefile" in files {
      ContainsIs(files["Corefile"], ".:53");
      ContainsIs(files["Corefile"], "forward .");
      NotAHostsFile(files["Corefile"]);
    }
  }

  lemma ContainsIs(s: string, word: string)
    ensures Contains(s, word) <==> exists a, b :: s == a + word + b
  {
    if Contains(s, word) {
      var i :| 0 <= i <= |s| - |word| && IsAt(s, i, word);
      assert s == s[..i] + word + s[i + |word|..];
    }
    if a, b :| s == a + word + b {
      assert IsAt(s, |a|, word);
    }
  }

  /** Every hosts file named by the Corefile on disk exists. */
  predicate Closed(dir: Files) {
    COREFILE in dir && References(dir[COREFILE]).Some? ==> References(dir[COREFILE]).value <= dir.Keys
  }

  method ValidateGenerated(files: Files) returns (ok: bool)
    ensures ok <==> Deployable(files)
  {
    var corefile := TextOf(files, COREFILE);
    if !HasBlocks(corefile) {
      return false;
    }
    var names := HostFiles(corefile);
    if names.None? || names.value == {} {
      return false;
    }
    NotAHostsFile(corefile);
    if exists name :: name in names.value && name !in files {
      return false;
    }
    if exists name :: name in files && name != COREFILE && name !in names.value {
      return false;
    }
    assert forall name :: name in files.Keys <==> name in names.value + {COREFILE};
    ok := true;
  }

  lemma NotAHostsFile(corefile: string)
    ensures References(corefile).Some? ==> COREFILE !in References(corefile).value
    ensures !HasBlocks("")
  {
    assert !EndsWith(COREFILE, ".hosts") by {
      assert COREFILE[|COREFILE| - 6] == 'r';
    }
  }

  predicate IsManaged(name: Name) {
    || name in {COREFILE, "faro.hosts", "local.hosts", "blocklist.hosts"}
    || ("protection-" <= name && EndsWith(name, ".hosts") && IsBaseName(name))
  }

  /** Managed files are the Corefile, three combined hosts files, and every hosts file of a profile in the directory itself. */
  lemma ManagedIs(name: Name)
    ensures IsManaged(name) <==>
      || name == "Corefile" || name == "faro.hosts" || name == "local.hosts" || name == "blocklist.hosts"
      || (&& |name| >= 17 && name[..11] == "protection-" && name[|name| - 6..] == ".hosts" && '/' !in name)
  {
    assert "protection-" <= name ==> forall k :: 0 <= k < 11 ==> name[k] != '.';
    assert EndsWith(name, ".hosts") ==> name[|name| - 6] == '.';
  }

  /** The bytes of the named files together. */
  ghost function Total(files: Files, names: set<Name>): nat
    requires names <= files.Keys
  {
    if names == {} then 0
    else
      var name :| name in names;
      |files[name]| + Total(files, names - {name})
  }

  lemma {:induction false} TotalSplit(files: Files, names: set<Name>, name: Name)
    requires names <= files.Keys && name in names
    ensures Total(files, names) == |files[name]| + Total(files, names - {name})
    decreases names
  {
    var other :| other in names && Total(files, names) == |files[other]| + Total(files, names - {other});
    if other != name {
      TotalSplit(files, names - {other}, name);
      TotalSplit(files, names - {name}, other);
      assert names - {other} - {name} == names - {name} - {other};
    }
  }

  /** What a replica accepts from its controller. */
  ghost predicate Replicable(files: Files) {
    && 2 <= |files| <= 64
    && (forall name :: name in files ==> IsManaged(name))
    && Total(files, files.Keys) <= MAX_BYTES
    && Deployable(files)
  }

  /** What a replica accepts, in full. */
  lemma ReplicableIs(files: Files)
    ensures Replicable(files) <==>
      && 2 <= |files| <= 64 && (forall name :: name in files ==> IsManaged(name)) && Total(files, files.Keys) <= 536870912
      && Deployable(files)
  {
  }

  method ValidateReplica(files: Files) returns (ok: bool)
    ensures ok <==> Replicable(files)
  {
    if |files| < 2 || |files| > 64 {
      return false;
    }
    var small := ValidateEach(files);
    if !small {
      return false;
    }
    ok := ValidateGenerated(files);
  }

  method ValidateEach(files: Files) returns (ok: bool)
    ensures ok <==> (forall name :: name in files ==> IsManaged(name)) && Total(files, files.Keys) <= MAX_BYTES
  {
    var rest, total := files.Keys, 0;
    while rest != {}
      invariant rest <= files.Keys && total + Total(files, rest) == Total(files, files.Keys) && total <= MAX_BYTES
      invariant forall name :: name in files && name !in rest ==> IsManaged(name)
    {
      var name := Pick(rest);
      if !IsManaged(name) {
        return false;
      }
      TotalSplit(files, rest, name);
      total := total + |files[name]|;
      rest := rest - {name};
      if total > MAX_BYTES {
        return false;
      }
    }
    ok := true;
  }

  /** Every file of the set is in the directory as it is. */
  predicate Agree(dir: Files, wanted: Files) {
    forall name :: name in wanted ==> name in dir && dir[name] == wanted[name]
  }

  /** The accepted files can be read back: the Corefile names some, all are there, and they are not too large. */
  ghost predicate Readable(dir: Files) {
    && COREFILE in dir
    && References(dir[COREFILE]).Some?
    && References(dir[COREFILE]).value != {}
    && References(dir[COREFILE]).value <= dir.Keys
    && Total(dir, References(dir[COREFILE]).value + {COREFILE}) <= MAX_BYTES
  }

  /** The files of an accepted configuration, read back for replication. */
  method ReadGenerated(dir: Files) returns (files: Option<Files>)
    ensures files.Some? <==> Readable(dir)
    ensures files.Some? ==> files.value.Keys == References(dir[COREFILE]).value + {COREFILE} && Agree(dir, files.value)
  {
    if COREFILE !in dir {
      return None;
    }
    var names := HostFiles(dir[COREFILE]);
    NotAHostsFile(dir[COREFILE]);
    if names.None? || names.value == {} {
      return None;
    }
    files := ReadNamed(dir, names.value);
  }

  method ReadNamed(dir: Files, names: set<Name>) returns (files: Option<Files>)
    requires COREFILE in dir && COREFILE !in names && names != {}
    ensures files.Some? <==> names <= dir.Keys && Total(dir, names + {COREFILE}) <= MAX_BYTES
    ensures files.Some? ==> files.value.Keys == names + {COREFILE} && Agree(dir, files.value)
  {
    var read, total, rest := map[COREFILE := dir[COREFILE]], |dir[COREFILE]|, names;
    TotalOfOne(dir, COREFILE);
    while rest != {}
      invariant rest <= names && read.Keys == (names - rest) + {COREFILE} && Agree(dir, read)
      invariant read.Keys <= dir.Keys && total == Total(dir, read.Keys)
      invariant rest != names ==> total <= MAX_BYTES
    {
      var name := Pick(rest);
      if name !in dir {
        return None;
      }
      rest := rest - {name};
      total := total + |dir[name]|;
      OneMoreFile(dir, read.Keys, name);
      assert read[name := dir[name]].Keys == read.Keys + {name};
      if total > MAX_BYTES {
        if names <= dir.Keys {
          TotalGrows(dir, read.Keys + {name}, names + {COREFILE});
        }
        return None;
      }
      read := read[name := dir[name]];
    }
    assert names - rest == names;
    files := Some(read);
  }

  lemma TotalOfOne(files: Files, name: Name)
    requires name in files
    ensures Total(files, {name}) == |files[name]|
  {
    TotalSplit(files, {name}, name);
    assert {name} - {name} == {};
  }

  lemma OneMoreFile(files: Files, names: set<Name>, name: Name)
    requires names <= files.Keys && name in files && name !in names
    ensures Total(files, names + {name}) == Total(files, names) + |files[name]|
  {
    TotalSplit(files, names + {name}, name);
    assert names + {name} - {name} == names;
  }

  lemma {:induction false} TotalGrows(files: Files, some: set<Name>, all: set<Name>)
    requires some <= all <= files.Keys
    ensures Total(files, some) <= Total(files, all)
    decreases all
  {
    if exists name :: name in all && name !in some {
      var name :| name in all && name !in some;
      TotalSplit(files, all, name);
      TotalGrows(files, some, all - {name});
    } else {
      assert some == all;
    }
  }

  lemma {:induction false} SameTotal(files: Files, other: Files, names: set<Name>)
    requires names <= files.Keys && names <= other.Keys && forall name :: name in names ==> files[name] == other[name]
    ensures Total(files, names) == Total(other, names)
    decreases names
  {
    if names != {} {
      var name := AnyElement(names);
      TotalSplit(files, names, name);
      TotalSplit(other, names, name);
      SameTotal(files, other, names - {name});
    }
  }

  /** Reading back a directory that holds an accepted set gives that set, unless it is too large to synchronize. */
  lemma ReadBack(dir: Files, files: Files)
    requires Deployable(files) && Agree(dir, files)
    ensures Readable(dir) <==> Total(files, files.Keys) <= MAX_BYTES
    ensures forall read: Files :: read.Keys == References(dir[COREFILE]).value + {COREFILE} && Agree(dir, read) ==> read == files
  {
    SameTotal(files, dir, files.Keys);
  }
}
