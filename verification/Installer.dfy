/** The three-way installer: what one file's plan decides, what executing it writes, one
    `install_category` run over a directory, and runs over a whole history of upstream
    changes, user edits and installs.

    A file is a name in a flat directory; its bytes are opaque and hashed by `hash`, which
    stands for the truncated SHA-256. Category and target directory are fixed. */
module Installer {
  import opened Text

  type Bytes = seq<bv8>
  type Hash = string
  type Dir = map<string, Bytes>
  type Manifest = map<string, Hash>

  /** An entry of the source directory; a subdirectory is not a file. */
  datatype Entry = Entry(name: string, isFile: bool, content: Bytes)

  datatype Action = Install | Update | SkipUnchanged | SkipUserModified | Conflict

  datatype Reason =
    | SourceMissing | NewFile | AlreadyMatches | PreManifest
    | NothingChanged | SourceUpdated | UserCustomised | BothModified | NoActionNeeded

  datatype Plan = Plan(key: string, action: Action, reason: Reason)

  const BACKUP := ".backup"

  function BackupOf(name: string): string {
    name + BACKUP
  }

  function Key(category: string, name: string): string {
    category + "/" + name
  }

  lemma KeyInjective(category: string, m: string, n: string)
    ensures Key(category, m) == Key(category, n) <==> m == n
  {
    assert Key(category, m)[|category| + 1..] == m;
    assert Key(category, n)[|category| + 1..] == n;
  }

  function Lookup<V>(m: map<string, V>, k: string): Option<V> {
    if k in m then Some(m[k]) else None
  }

  function FileHash(hash: Bytes -> Hash, content: Option<Bytes>): Option<Hash> {
    if content.None? then None else Some(hash(content.value))
  }

  /** `plan_file_install`: source, installed and current hash, compared in the code's order. */
  function Decide(source: Option<Hash>, installed: Option<Hash>, current: Option<Hash>): (Action, Reason) {
    if source.None? then (SkipUnchanged, SourceMissing)
    else if current.None? then (Install, NewFile)
    else if installed.None? then
      if source == current then (SkipUnchanged, AlreadyMatches) else (Conflict, PreManifest)
    else if source == installed && installed == current then (SkipUnchanged, NothingChanged)
    else if source != installed && current == installed then (Update, SourceUpdated)
    else if source == installed && current != installed then (SkipUserModified, UserCustomised)
    else if source != installed && current != installed then (Conflict, BothModified)
    else (SkipUnchanged, NoActionNeeded)
  }

  /** The last return of the plan is unreachable, and each other outcome is exactly one cell
      of the decision matrix. */
  lemma DecisionMatrix(source: Option<Hash>, installed: Option<Hash>, current: Option<Hash>)
    ensures var (action, reason) := Decide(source, installed, current);
            && reason != NoActionNeeded
            && (action == Install <==> source.Some? && current.None?)
            && (action == Update <==> source.Some? && current.Some? && current == installed && source != installed)
            && (action == Conflict <==>
                  source.Some? && current.Some? && installed != current && source != (if installed.Some? then installed else current))
            && (action == SkipUserModified <==> source.Some? && current.Some? && source == installed && installed != current)
            && (action == SkipUnchanged <==>
                  source.None? || (current.Some? && source == current && (installed.None? || installed == current)))
            && (reason == SourceMissing <==> source.None?)
            && (reason == NewFile <==> action == Install)
            && (reason == AlreadyMatches <==> source.Some? && installed.None? && current == source)
            && (reason == PreManifest <==> action == Conflict && installed.None?)
            && (reason == NothingChanged <==> source.Some? && source == installed == current)
            && (reason == SourceUpdated <==> action == Update)
            && (reason == UserCustomised <==> action == SkipUserModified)
            && (reason == BothModified <==> action == Conflict && installed.Some?)
  {
  }

  /** What one installation works on. `wrote` is the history: the bytes the installer last
      wrote to a target. */
  datatype Disk = Disk(target: Dir, manifest: Manifest, wrote: Dir)

  function PlanFor(hash: Bytes -> Hash, category: string, e: Entry, d: Disk): Plan {
    var key := Key(category, e.name);
    var source := if e.isFile then Some(e.content) else None;
    var (action, reason) :=
      Decide(FileHash(hash, source), Lookup(d.manifest, key), FileHash(hash, Lookup(d.target, e.name)));
    Plan(key, action, reason)
  }

  function Write(hash: Bytes -> Hash, category: string, e: Entry, d: Disk): Disk {
    Disk(d.target[e.name := e.content],
         d.manifest[Key(category, e.name) := hash(e.content)],
         d.wrote[e.name := e.content])
  }

  function SaveBackup(e: Entry, d: Disk): Disk
    requires e.name in d.target
  {
    d.(target := d.target[BackupOf(e.name) := d.target[e.name]])
  }

  /** Planning and executing one file. */
  function InstallFile(hash: Bytes -> Hash, category: string, e: Entry, d: Disk): Disk {
    match PlanFor(hash, category, e, d).action
    case Install => Write(hash, category, e, d)
    case Update => Write(hash, category, e, SaveBackup(e, d))
    case Conflict => Write(hash, category, e, SaveBackup(e, d))
    case SkipUnchanged => d
    case SkipUserModified => d
  }

  /** The entries of the sorted listing whose name ends in `ext`, in order. */
  function Glob(listing: seq<Entry>, ext: string): seq<Entry> {
    if listing == [] then []
    else (if EndsWith(listing[0].name, ext) then [listing[0]] else []) + Glob(listing[1..], ext)
  }

  function InstallAll(hash: Bytes -> Hash, category: string, es: seq<Entry>, d: Disk): Disk {
    if es == [] then d
    else InstallAll(hash, category, es[1..], InstallFile(hash, category, es[0], d))
  }

  /** The entries one run visits, in the order of its double loop. */
  function Visited(listing: seq<Entry>, extensions: seq<string>): seq<Entry> {
    if extensions == [] then [] else Glob(listing, extensions[0]) + Visited(listing, extensions[1..])
  }

  // ---------------------------------------------------------------- which names a run visits

  ghost predicate DistinctNames(es: seq<Entry>) {
    forall i, j | 0 <= i < j < |es| :: es[i].name != es[j].name
  }

  /** No extension ends another one, and none can end a backup's name. */
  ghost predicate Separate(extensions: seq<string>) {
    && (forall i, j | 0 <= i < j < |extensions| ::
          !EndsWith(extensions[i], extensions[j]) && !EndsWith(extensions[j], extensions[i]))
    && (forall i | 0 <= i < |extensions| :: !EndsWith(BACKUP, extensions[i]) && !EndsWith(extensions[i], BACKUP))
  }

  /** Two endings of one name are endings of one another. */
  lemma EndingsNest(m: string, a: string, n: string, b: string)
    requires EndsWith(m, a) && EndsWith(n, b)
    ensures m == n ==> EndsWith(a, b) || EndsWith(b, a)
  {
    if |a| <= |b| {
      assert m == n ==> b[|b| - |a|..] == m[|m| - |a|..];
    } else {
      assert m == n ==> a[|a| - |b|..] == n[|n| - |b|..];
    }
  }

  lemma SameLast(a: string, b: string)
    requires EndsWith(a, b) && b != []
    ensures a[|a| - 1] == b[|b| - 1]
  {
    assert a[|a| - |b|..][|b| - 1] == a[|a| - 1];
  }

  lemma DifferentLast(a: string, b: string)
    requires a != [] && b != [] && a[|a| - 1] != b[|b| - 1]
    ensures !EndsWith(a, b) && !EndsWith(b, a)
  {
    if EndsWith(a, b) { SameLast(a, b); }
    if EndsWith(b, a) { SameLast(b, a); }
  }

  lemma NotLikeABackup(ext: string)
    requires ext != "" && ext[|ext| - 1] != 'p'
    ensures !EndsWith(BACKUP, ext) && !EndsWith(ext, BACKUP)
  {
    DifferentLast(BACKUP, ext);
  }

  lemma OneIsSeparate(a: string)
    requires a != "" && a[|a| - 1] != 'p'
    ensures Separate([a])
  {
    NotLikeABackup(a);
  }

  lemma TwoAreSeparate(a: string, b: string)
    requires a != "" && a[|a| - 1] != 'p' && b != "" && b[|b| - 1] != 'p'
    requires !EndsWith(a, b) && !EndsWith(b, a)
    ensures Separate([a, b])
  {
    NotLikeABackup(a);
    NotLikeABackup(b);
  }

  lemma SameLengthDiffer(a: string, b: string, k: nat)
    requires k < |a| == |b| && a[k] != b[k]
    ensures !EndsWith(a, b) && !EndsWith(b, a)
  {
    assert a[|a| - |b|..] == a && b[|b| - |a|..] == b;
  }

  /** The extension lists of the four categories. */
  lemma ShippedExtensionsAreSeparate()
    ensures Separate([".yaml", ".toml"]) && Separate([".toml"]) && Separate([".md"]) && Separate([".js", ".json"])
  {
    SameLengthDiffer(".yaml", ".toml", 1);
    TwoAreSeparate(".yaml", ".toml");
    OneIsSeparate(".toml");
    OneIsSeparate(".md");
    DifferentLast(".js", ".json");
    TwoAreSeparate(".js", ".json");
  }

  lemma {:induction false} InGlob(listing: seq<Entry>, ext: string, e: Entry)
    ensures e in Glob(listing, ext) <==> e in listing && EndsWith(e.name, ext)
  {
    if listing != [] {
      InGlob(listing[1..], ext, e);
      assert listing == [listing[0]] + listing[1..];
    }
  }

  lemma {:induction false} InVisited(listing: seq<Entry>, extensions: seq<string>, e: Entry)
    ensures e in Visited(listing, extensions) <==>
            e in listing && exists i :: 0 <= i < |extensions| && EndsWith(e.name, extensions[i])
  {
    if extensions != [] {
      InGlob(listing, extensions[0], e);
      InVisited(listing, extensions[1..], e);
      assert forall i :: 0 < i < |extensions| ==> extensions[i] == extensions[1..][i - 1];
      if e in listing && exists i :: 0 <= i < |extensions[1..]| && EndsWith(e.name, extensions[1..][i]) {
        var i :| 0 <= i < |extensions[1..]| && EndsWith(e.name, extensions[1..][i]);
        assert EndsWith(e.name, extensions[i + 1]);
      }
    }
  }

  lemma {:induction false} GlobDistinct(listing: seq<Entry>, ext: string)
    requires DistinctNames(listing)
    ensures DistinctNames(Glob(listing, ext))
  {
    if listing != [] {
      GlobDistinct(listing[1..], ext);
      forall e | e in Glob(listing[1..], ext) ensures e.name != listing[0].name {
        InGlob(listing[1..], ext, e);
      }
    }
  }

  /** Every name is visited at most once, and no visited name is another's backup. */
  lemma {:induction false} VisitedOnce(listing: seq<Entry>, extensions: seq<string>)
    requires DistinctNames(listing) && Separate(extensions)
    ensures DistinctNames(Visited(listing, extensions))
    ensures NoBackupVisited(Visited(listing, extensions))
  {
    var es := Visited(listing, extensions);
    if extensions != [] {
      var rest := extensions[1..];
      assert forall i :: 0 <= i < |rest| ==> rest[i] == extensions[i + 1];
      GlobDistinct(listing, extensions[0]);
      VisitedOnce(listing, rest);
      forall a, b | a in Glob(listing, extensions[0]) && b in Visited(listing, rest) ensures a.name != b.name {
        InGlob(listing, extensions[0], a);
        InVisited(listing, rest, b);
        var i :| 0 <= i < |rest| && EndsWith(b.name, rest[i]);
        EndingsNest(a.name, extensions[0], b.name, rest[i]);
      }
    }
    forall a, b | a in es && b in es ensures a.name != BackupOf(b.name) {
      InVisited(listing, extensions, a);
      var i :| 0 <= i < |extensions| && EndsWith(a.name, extensions[i]);
      NotABackup(a.name, extensions[i], b.name);
    }
  }

  ghost predicate NoBackupVisited(es: seq<Entry>) {
    forall a, b | a in es && b in es :: a.name != BackupOf(b.name)
  }

  lemma NotABackup(name: string, ext: string, other: string)
    requires EndsWith(name, ext) && !EndsWith(BACKUP, ext) && !EndsWith(ext, BACKUP)
    ensures name != BackupOf(other)
  {
    assert EndsWith(BackupOf(other), BACKUP);
    EndingsNest(name, ext, BackupOf(other), BACKUP);
  }

  // ---------------------------------------------------------------- one run

  /** `d` and `d'` agree on everything that planning and installing `name` reads or writes. */
  predicate SameAt(category: string, name: string, d: Disk, d': Disk) {
    && Lookup(d.target, name) == Lookup(d'.target, name)
    && Lookup(d.target, BackupOf(name)) == Lookup(d'.target, BackupOf(name))
    && Lookup(d.manifest, Key(category, name)) == Lookup(d'.manifest, Key(category, name))
    && Lookup(d.wrote, name) == Lookup(d'.wrote, name)
  }

  lemma InstallFileElsewhere(hash: Bytes -> Hash, category: string, e: Entry, d: Disk, name: string)
    requires name != e.name && name != BackupOf(e.name) && e.name != BackupOf(name)
    ensures SameAt(category, name, d, InstallFile(hash, category, e, d))
  {
    KeyInjective(category, name, e.name);
    assert BackupOf(name)[..|name|] == name && BackupOf(e.name)[..|e.name|] == e.name;
  }

  lemma InstallFileLocal(hash: Bytes -> Hash, category: string, e: Entry, d: Disk, d': Disk)
    requires SameAt(category, e.name, d, d')
    ensures SameAt(category, e.name, InstallFile(hash, category, e, d), InstallFile(hash, category, e, d'))
    ensures PlanFor(hash, category, e, d) == PlanFor(hash, category, e, d')
  {
    assert |BackupOf(e.name)| > |e.name|;
  }

  lemma {:induction false} InstallAllElsewhere(hash: Bytes -> Hash, category: string, es: seq<Entry>, d: Disk, name: string)
    requires forall e | e in es :: name != e.name && name != BackupOf(e.name) && e.name != BackupOf(name)
    ensures SameAt(category, name, d, InstallAll(hash, category, es, d))
  {
    if es != [] {
      InstallFileElsewhere(hash, category, es[0], d, name);
      InstallAllElsewhere(hash, category, es[1..], InstallFile(hash, category, es[0], d), name);
    }
  }

  /** A run does to each visited name what installing it alone, first, would do. */
  lemma {:induction false} EachFileAsIfAlone(hash: Bytes -> Hash, category: string, es: seq<Entry>, d: Disk, i: nat)
    requires DistinctNames(es) && NoBackupVisited(es) && i < |es|
    ensures SameAt(category, es[i].name, InstallFile(hash, category, es[i], d), InstallAll(hash, category, es, d))
    decreases i
  {
    var d1 := InstallFile(hash, category, es[0], d);
    if i == 0 {
      InstallAllElsewhere(hash, category, es[1..], d1, es[0].name);
    } else {
      InstallFileElsewhere(hash, category, es[0], d, es[i].name);
      EachFileAsIfAlone(hash, category, es[1..], d1, i - 1);
      InstallFileLocal(hash, category, es[i], d, d1);
    }
  }

  lemma AsIfAlone(hash: Bytes -> Hash, category: string, es: seq<Entry>, d: Disk, e: Entry)
    requires DistinctNames(es) && NoBackupVisited(es) && e in es
    ensures SameAt(category, e.name, InstallFile(hash, category, e, d), InstallAll(hash, category, es, d))
  {
    var i :| 0 <= i < |es| && es[i] == e;
    EachFileAsIfAlone(hash, category, es, d, i);
  }

  /** Content that was there before a run is there after it, in place or in its backup. */
  lemma ContentIsKept(
    hash: Bytes -> Hash, category: string, listing: seq<Entry>, extensions: seq<string>, d: Disk, name: string)
    requires DistinctNames(listing) && Separate(extensions) && name in d.target
    requires forall e | e in Visited(listing, extensions) :: name != BackupOf(e.name)
    ensures var d' := InstallAll(hash, category, Visited(listing, extensions), d);
            || Lookup(d'.target, name) == Some(d.target[name])
            || Lookup(d'.target, name + ".backup") == Some(d.target[name])
  {
    var es := Visited(listing, extensions);
    VisitedOnce(listing, extensions);
    if e :| e in es && e.name == name {
      AsIfAlone(hash, category, es, d, e);
      KeptByFile(hash, category, e, d);
    } else {
      TargetElsewhere(hash, category, es, d, name);
    }
  }

  lemma KeptByFile(hash: Bytes -> Hash, category: string, e: Entry, d: Disk)
    requires e.name in d.target
    ensures var d' := InstallFile(hash, category, e, d);
            || Lookup(d'.target, e.name) == Some(d.target[e.name])
            || Lookup(d'.target, BackupOf(e.name)) == Some(d.target[e.name])
  {
    assert |BackupOf(e.name)| > |e.name|;
  }

  lemma {:induction false} TargetElsewhere(hash: Bytes -> Hash, category: string, es: seq<Entry>, d: Disk, path: string)
    requires forall e | e in es :: path != e.name && path != BackupOf(e.name)
    ensures Lookup(InstallAll(hash, category, es, d).target, path) == Lookup(d.target, path)
  {
    if es != [] {
      TargetElsewhere(hash, category, es[1..], InstallFile(hash, category, es[0], d), path);
    }
  }

  /** A path that is neither a visited name nor the backup of one is left alone. */
  lemma OtherPathsUntouched(
    hash: Bytes -> Hash, category: string, listing: seq<Entry>, extensions: seq<string>, d: Disk, path: string)
    requires forall e | e in Visited(listing, extensions) :: path != e.name && path != BackupOf(e.name)
    ensures Lookup(InstallAll(hash, category, Visited(listing, extensions), d).target, path) == Lookup(d.target, path)
  {
    TargetElsewhere(hash, category, Visited(listing, extensions), d, path);
  }

  predicate Skips(a: Action) {
    a == SkipUnchanged || a == SkipUserModified
  }

  /** After a run the target has the source's hash, or the manifest has it and the target is
      the user's content as it was before. */
  predicate Settled(hash: Bytes -> Hash, category: string, e: Entry, before: Disk, d: Disk) {
    e.isFile ==>
      && e.name in d.target
      && (|| hash(d.target[e.name]) == hash(e.content)
          || (&& Lookup(d.manifest, Key(category, e.name)) == Some(hash(e.content))
              && Lookup(before.target, e.name) == Some(d.target[e.name])))
  }

  lemma InstallFileSettles(hash: Bytes -> Hash, category: string, e: Entry, d: Disk)
    ensures Settled(hash, category, e, d, InstallFile(hash, category, e, d))
    ensures Skips(PlanFor(hash, category, e, InstallFile(hash, category, e, d)).action)
  {
  }

  lemma RunSettles(
    hash: Bytes -> Hash, category: string, listing: seq<Entry>, extensions: seq<string>, d: Disk, e: Entry)
    requires DistinctNames(listing) && Separate(extensions) && e in Visited(listing, extensions)
    ensures Settled(hash, category, e, d, InstallAll(hash, category, Visited(listing, extensions), d))
  {
    VisitedOnce(listing, extensions);
    AsIfAlone(hash, category, Visited(listing, extensions), d, e);
    InstallFileSettles(hash, category, e, d);
  }

  lemma {:induction false} AllSkipped(hash: Bytes -> Hash, category: string, es: seq<Entry>, d: Disk)
    requires forall e | e in es :: Skips(PlanFor(hash, category, e, d).action)
    ensures InstallAll(hash, category, es, d) == d
  {
    if es != [] {
      AllSkipped(hash, category, es[1..], d);
    }
  }

  /** A second run with nothing changed in between changes nothing. */
  lemma SecondRunChangesNothing(
    hash: Bytes -> Hash, category: string, listing: seq<Entry>, extensions: seq<string>, d: Disk)
    requires DistinctNames(listing) && Separate(extensions)
    ensures var d' := InstallAll(hash, category, Visited(listing, extensions), d);
            InstallAll(hash, category, Visited(listing, extensions), d') == d'
  {
    var es := Visited(listing, extensions);
    var d' := InstallAll(hash, category, es, d);
    VisitedOnce(listing, extensions);
    forall i | 0 <= i < |es| ensures Skips(PlanFor(hash, category, es[i], d').action) {
      EachFileAsIfAlone(hash, category, es, d, i);
      InstallFileSettles(hash, category, es[i], d);
      InstallFileLocal(hash, category, es[i], InstallFile(hash, category, es[i], d), d');
    }
    AllSkipped(hash, category, es, d');
  }

  // ---------------------------------------------------------------- whole histories

  /** What happens between and including installs: a new source listing, any change to a path
      of the target directory, a manifest that can no longer be read, one run. */
  datatype Event =
    | Upstream(listing: seq<Entry>)
    | UserEdit(path: string, content: Option<Bytes>)
    | LoseManifest
    | RunInstaller

  datatype World = World(listing: seq<Entry>, disk: Disk)

  datatype Setup = Setup(hash: Bytes -> Hash, category: string, extensions: seq<string>)

  function Happen(u: Setup, w: World, event: Event): World {
    match event
    case Upstream(listing) => w.(listing := listing)
    case UserEdit(path, content) =>
      w.(disk := w.disk.(target := if content.Some? then w.disk.target[path := content.value] else w.disk.target - {path}))
    case LoseManifest => w.(disk := w.disk.(manifest := map[]))
    case RunInstaller => w.(disk := InstallAll(u.hash, u.category, Visited(w.listing, u.extensions), w.disk))
  }

  function History(u: Setup, w: World, events: seq<Event>): World
    decreases |events|
  {
    if events == [] then w else History(u, Happen(u, w, events[0]), events[1..])
  }

  ghost predicate GoodEvent(event: Event) {
    event.Upstream? ==> DistinctNames(event.listing)
  }

  /** Each manifest entry of the category is the hash of what was last written there. */
  ghost predicate Honest(u: Setup, d: Disk) {
    forall name | Key(u.category, name) in d.manifest ::
      name in d.wrote && d.manifest[Key(u.category, name)] == u.hash(d.wrote[name])
  }

  lemma HonestFile(u: Setup, e: Entry, d: Disk)
    requires Honest(u, d)
    ensures Honest(u, InstallFile(u.hash, u.category, e, d))
  {
    var d' := InstallFile(u.hash, u.category, e, d);
    forall name | Key(u.category, name) in d'.manifest
      ensures name in d'.wrote && d'.manifest[Key(u.category, name)] == u.hash(d'.wrote[name])
    {
      KeyInjective(u.category, name, e.name);
    }
  }

  lemma {:induction false} HonestRun(u: Setup, es: seq<Entry>, d: Disk)
    requires Honest(u, d)
    ensures Honest(u, InstallAll(u.hash, u.category, es, d))
  {
    if es != [] {
      HonestFile(u, es[0], d);
      HonestRun(u, es[1..], InstallFile(u.hash, u.category, es[0], d));
    }
  }

  lemma {:induction false} ManifestIsHonest(u: Setup, w: World, events: seq<Event>)
    requires Honest(u, w.disk)
    ensures Honest(u, History(u, w, events).disk)
    decreases |events|
  {
    if events != [] {
      if events[0].RunInstaller? {
        HonestRun(u, Visited(w.listing, u.extensions), w.disk);
      }
      ManifestIsHonest(u, Happen(u, w, events[0]), events[1..]);
    }
  }

  lemma RunAsIfAlone(u: Setup, w: World, e: Entry)
    requires DistinctNames(w.listing) && Separate(u.extensions) && e in Visited(w.listing, u.extensions)
    ensures SameAt(u.category, e.name, InstallFile(u.hash, u.category, e, w.disk), Happen(u, w, RunInstaller).disk)
  {
    VisitedOnce(w.listing, u.extensions);
    AsIfAlone(u.hash, u.category, Visited(w.listing, u.extensions), w.disk, e);
  }

  /** What a run does to one visited file that exists: it is left alone, or its content goes
      to the backup and the source takes its place, as an update only when the content still
      has the hash of what the installer last wrote there, otherwise as a conflict. */
  lemma OverwrittenOnlyAs(u: Setup, w: World, e: Entry)
    requires DistinctNames(w.listing) && Separate(u.extensions) && Honest(u, w.disk)
    requires e in Visited(w.listing, u.extensions) && e.name in w.disk.target
    ensures var d, d' := w.disk, Happen(u, w, RunInstaller).disk;
            var was, action := d.target[e.name], PlanFor(u.hash, u.category, e, d).action;
            && action != Install
            && (Skips(action) ==> Lookup(d'.target, e.name) == Some(was))
            && (!Skips(action) ==>
                  && Lookup(d'.target, e.name) == Some(e.content)
                  && Lookup(d'.target, e.name + ".backup") == Some(was)
                  && Lookup(d'.wrote, e.name) == Some(e.content))
            && (action == Update ==> e.name in d.wrote && u.hash(was) == u.hash(d.wrote[e.name]))
            && (action == Conflict ==>
                  Key(u.category, e.name) in d.manifest ==> u.hash(was) != u.hash(d.wrote[e.name]))
  {
    RunAsIfAlone(u, w, e);
    assert |BackupOf(e.name)| > |e.name|;
  }

  /** All that one run does to a visited file. It keeps a file that is there when the manifest has
      the source's hash, or has nothing and the file has it; otherwise the source takes its place
      and is recorded, and what was there goes to the backup. */
  lemma RunKeepsOrWrites(u: Setup, w: World, e: Entry)
    requires DistinctNames(w.listing) && Separate(u.extensions) && e in Visited(w.listing, u.extensions) && e.isFile
    ensures var d, d' := w.disk, Happen(u, w, RunInstaller).disk;
            var key, backup := u.category + "/" + e.name, e.name + ".backup";
            var keeps := e.name in d.target
                         && u.hash(e.content) == if key in d.manifest then d.manifest[key] else u.hash(d.target[e.name]);
            && Lookup(d'.target, e.name) == (if keeps then Some(d.target[e.name]) else Some(e.content))
            && Lookup(d'.manifest, key) == (if keeps then Lookup(d.manifest, key) else Some(u.hash(e.content)))
            && Lookup(d'.target, backup) ==
               if keeps || e.name !in d.target then Lookup(d.target, backup) else Some(d.target[e.name])
  {
    RunAsIfAlone(u, w, e);
    assert |BackupOf(e.name)| > |e.name|;
    assert Key(u.category, e.name) == u.category + "/" + e.name;
  }

  /** Content the installer would replace stays exactly when the manifest already has the
      source's hash. */
  lemma CustomisedSurvivesIff(u: Setup, w: World, e: Entry)
    requires DistinctNames(w.listing) && Separate(u.extensions)
    requires e in Visited(w.listing, u.extensions) && e.isFile
    requires e.name in w.disk.target && u.hash(w.disk.target[e.name]) != u.hash(e.content)
    ensures Lookup(Happen(u, w, RunInstaller).disk.target, e.name) == Some(w.disk.target[e.name]) <==>
            Lookup(w.disk.manifest, Key(u.category, e.name)) == Some(u.hash(e.content))
  {
    RunAsIfAlone(u, w, e);
    assert |BackupOf(e.name)| > |e.name|;
  }

  /** The event leaves this source file, this target file and the manifest to the installer. */
  ghost predicate LeavesAlone(event: Event, e: Entry) {
    match event
    case Upstream(listing) => e in listing
    case UserEdit(path, _) => path != e.name
    case LoseManifest => false
    case RunInstaller => true
  }

  ghost predicate Customised(u: Setup, w: World, e: Entry, content: Bytes) {
    && DistinctNames(w.listing) && e in w.listing
    && Lookup(w.disk.target, e.name) == Some(content)
    && Lookup(w.disk.manifest, Key(u.category, e.name)) == Some(u.hash(e.content))
  }

  /** With its source unchanged, a recorded file that the user changed survives any number of
      installs, whatever happens to other files and their sources. */
  lemma {:induction false} CustomisedSurvives(u: Setup, w: World, events: seq<Event>, e: Entry, content: Bytes)
    requires Separate(u.extensions) && e.isFile && e in Visited([e], u.extensions) && Customised(u, w, e, content)
    requires forall event | event in events :: GoodEvent(event) && LeavesAlone(event, e)
    ensures Customised(u, History(u, w, events), e, content)
    decreases |events|
  {
    if events != [] {
      assert GoodEvent(events[0]) && LeavesAlone(events[0], e);
      StaysCustomised(u, w, events[0], e, content);
      CustomisedSurvives(u, Happen(u, w, events[0]), events[1..], e, content);
    }
  }

  lemma StaysCustomised(u: Setup, w: World, event: Event, e: Entry, content: Bytes)
    requires Separate(u.extensions) && e.isFile && e in Visited([e], u.extensions) && Customised(u, w, e, content)
    requires GoodEvent(event) && LeavesAlone(event, e)
    ensures Customised(u, Happen(u, w, event), e, content)
  {
    if event.RunInstaller? {
      InVisited([e], u.extensions, e);
      InVisited(w.listing, u.extensions, e);
      RunKeepsOrWrites(u, w, e);
      assert Key(u.category, e.name) == u.category + "/" + e.name;
    }
  }

  ghost predicate FirstInstallDue(u: Setup, w: World, e: Entry) {
    DistinctNames(w.listing) && e in Visited(w.listing, u.extensions) && e.isFile && e.name !in w.disk.target
  }

  lemma FirstInstall(u: Setup, w: World, e: Entry)
    requires Separate(u.extensions) && FirstInstallDue(u, w, e)
    ensures e in Visited([e], u.extensions) && Customised(u, Happen(u, w, RunInstaller), e, e.content)
  {
    InVisited(w.listing, u.extensions, e);
    InVisited([e], u.extensions, e);
    RunKeepsOrWrites(u, w, e);
    assert Key(u.category, e.name) == u.category + "/" + e.name;
  }

  /** A file that was missing, was installed and then edited keeps the edit through any history
      that leaves its source, its path and the manifest alone. */
  lemma EditAfterInstallSurvives(u: Setup, w: World, e: Entry, content: Bytes, later: seq<Event>)
    requires Separate(u.extensions) && FirstInstallDue(u, w, e)
    requires forall event | event in later :: GoodEvent(event) && LeavesAlone(event, e)
    ensures var edited := Happen(u, Happen(u, w, RunInstaller), UserEdit(e.name, Some(content)));
            Lookup(History(u, edited, later).disk.target, e.name) == Some(content)
  {
    FirstInstall(u, w, e);
    CustomisedSurvives(u, Happen(u, Happen(u, w, RunInstaller), UserEdit(e.name, Some(content))), later, e, content);
  }

  /** Left unedited, its next upstream change is an update, and the run after it brings the new
      content and backs the old one up. */
  lemma UneditedIsUpdated(u: Setup, w: World, e: Entry, later: seq<Event>, listing: seq<Entry>, newer: Entry)
    requires Separate(u.extensions) && FirstInstallDue(u, w, e)
    requires forall event | event in later :: GoodEvent(event) && LeavesAlone(event, e)
    requires DistinctNames(listing) && newer in listing && newer.isFile && newer.name == e.name
    requires u.hash(newer.content) != u.hash(e.content)
    ensures var before := Happen(u, History(u, Happen(u, w, RunInstaller), later), Upstream(listing));
            var after := Happen(u, before, RunInstaller).disk;
            && PlanFor(u.hash, u.category, newer, before.disk).action == Update
            && Lookup(after.target, e.name) == Some(newer.content)
            && Lookup(after.target, e.name + ".backup") == Some(e.content)
  {
    FirstInstall(u, w, e);
    CustomisedSurvives(u, Happen(u, w, RunInstaller), later, e, e.content);
    var before := Happen(u, History(u, Happen(u, w, RunInstaller), later), Upstream(listing));
    InVisited([e], u.extensions, e);
    InVisited(listing, u.extensions, newer);
    RunKeepsOrWrites(u, before, newer);
    assert Key(u.category, e.name) == u.category + "/" + e.name;
  }

  /** The backup is one slot: after a second conflict the first one's content is in neither
      place. */
  lemma BackupIsOneSlot(u: Setup, e: Entry, newer: Entry, d: Disk, first: Bytes, second: Bytes)
    requires e.isFile && newer.isFile && newer.name == e.name
    requires Lookup(d.target, e.name) == Some(first)
    requires PlanFor(u.hash, u.category, e, d).action == Conflict
    requires u.hash(second) != u.hash(e.content) && u.hash(newer.content) != u.hash(e.content)
    ensures var edited := Happen(u, World([e], InstallFile(u.hash, u.category, e, d)), UserEdit(e.name, Some(second))).disk;
            var d' := InstallFile(u.hash, u.category, newer, edited);
            && Lookup(edited.target, BackupOf(e.name)) == Some(first)
            && Lookup(d'.target, BackupOf(e.name)) == Some(second)
            && Lookup(d'.target, e.name) == Some(newer.content)
  {
    assert |BackupOf(e.name)| > |e.name|;
  }

  /** A file that matched its source before the manifest knew it is never recorded, so the
      next upstream change to it is a conflict although the user touched nothing. */
  lemma UnrecordedMatchConflicts(hash: Bytes -> Hash, category: string, e: Entry, newer: Entry, d: Disk)
    requires e.isFile && newer.isFile && newer.name == e.name && hash(newer.content) != hash(e.content)
    requires Lookup(d.target, e.name) == Some(e.content) && Key(category, e.name) !in d.manifest
    ensures PlanFor(hash, category, newer, InstallFile(hash, category, e, d)).action == Conflict
  {
  }

  // ---------------------------------------------------------------- the scripts

  /** The status line of one file: its key and what was done. */
  datatype Line = Line(key: string, action: Action)

  function Lines(hash: Bytes -> Hash, category: string, es: seq<Entry>, d: Disk): seq<Line> {
    if es == [] then []
    else
      (if es[0].isFile then [Line(Key(category, es[0].name), PlanFor(hash, category, es[0], d).action)] else [])
      + Lines(hash, category, es[1..], InstallFile(hash, category, es[0], d))
  }

  /** What the lines would say if nothing were written in between. */
  function Announced(hash: Bytes -> Hash, category: string, es: seq<Entry>, d: Disk): seq<Line> {
    if es == [] then []
    else
      (if es[0].isFile then [Line(category + "/" + es[0].name, PlanFor(hash, category, es[0], d).action)] else [])
      + Announced(hash, category, es[1..], d)
  }

  lemma {:induction false} SameAnnounced(hash: Bytes -> Hash, category: string, es: seq<Entry>, d: Disk, d': Disk)
    requires forall e | e in es :: PlanFor(hash, category, e, d) == PlanFor(hash, category, e, d')
    ensures Announced(hash, category, es, d) == Announced(hash, category, es, d')
  {
    if es != [] {
      SameAnnounced(hash, category, es[1..], d, d');
    }
  }

  /** The lines of a run are, file by file in the order visited, the plans made on the disk as it
      was before the run. */
  lemma {:induction false} LinesReportPlans(hash: Bytes -> Hash, category: string, es: seq<Entry>, d: Disk)
    requires DistinctNames(es) && NoBackupVisited(es)
    ensures Lines(hash, category, es, d) == Announced(hash, category, es, d)
  {
    if es != [] {
      var d1 := InstallFile(hash, category, es[0], d);
      LinesReportPlans(hash, category, es[1..], d1);
      forall e | e in es[1..] ensures PlanFor(hash, category, e, d1) == PlanFor(hash, category, e, d) {
        InstallFileElsewhere(hash, category, es[0], d, e.name);
        InstallFileLocal(hash, category, e, d, d1);
      }
      SameAnnounced(hash, category, es[1..], d1, d);
      assert Key(category, es[0].name) == category + "/" + es[0].name;
    }
  }

  /** A run visits exactly the entries with one of the extensions: the ones of an earlier extension
      first, and those of one extension in the order of the listing. */
  lemma {:induction false} VisitedInOrder(listing: seq<Entry>, ext: string, i: nat, j: nat)
    requires i < j < |listing| && EndsWith(listing[i].name, ext) && EndsWith(listing[j].name, ext)
    ensures exists k, l | 0 <= k < l < |Glob(listing, ext)| ::
              Glob(listing, ext)[k] == listing[i] && Glob(listing, ext)[l] == listing[j]
  {
    var found, rest := Glob(listing, ext), Glob(listing[1..], ext);
    if i == 0 {
      InGlob(listing[1..], ext, listing[j]);
      assert listing[1..][j - 1] == listing[j];
      var l :| 0 <= l < |rest| && rest[l] == listing[j];
      assert found[0] == listing[0] && found[l + 1] == rest[l];
    } else {
      VisitedInOrder(listing[1..], ext, i - 1, j - 1);
      var k, l :| 0 <= k < l < |rest| && rest[k] == listing[1..][i - 1] && rest[l] == listing[1..][j - 1];
      var n := |found| - |rest|;
      assert found[k + n] == rest[k] && found[l + n] == rest[l];
    }
  }

  /** A run of one category leaves the manifest entries of the others alone. */
  lemma {:induction false} OtherCategoriesUntouched(
    hash: Bytes -> Hash, category: string, es: seq<Entry>, d: Disk, other: string, name: string)
    requires other != category && '/' !in category && '/' !in other
    ensures Lookup(InstallAll(hash, category, es, d).manifest, Key(other, name)) == Lookup(d.manifest, Key(other, name))
  {
    if es != [] {
      KeyNamesCategory(category, es[0].name, other, name);
      OtherCategoriesUntouched(hash, category, es[1..], InstallFile(hash, category, es[0], d), other, name);
    }
  }

  lemma KeyNamesCategory(a: string, m: string, b: string, n: string)
    requires '/' !in a && '/' !in b && a != b
    ensures Key(a, m) != Key(b, n)
  {
    if Key(a, m) == Key(b, n) {
      SeparatorSplits(a, m, b, n, '/');
    }
  }

  lemma {:induction false} OneMore(hash: Bytes -> Hash, category: string, es: seq<Entry>, e: Entry, d: Disk)
    ensures InstallAll(hash, category, es + [e], d) == InstallFile(hash, category, e, InstallAll(hash, category, es, d))
    ensures Lines(hash, category, es + [e], d) ==
            Lines(hash, category, es, d) + Lines(hash, category, [e], InstallAll(hash, category, es, d))
  {
    if es == [] {
      assert [] + [e] == [e];
    } else {
      assert (es + [e])[1..] == es[1..] + [e];
      OneMore(hash, category, es[1..], e, InstallFile(hash, category, es[0], d));
    }
  }

  lemma {:induction false} VisitedSplit(listing: seq<Entry>, extensions: seq<string>, i: nat)
    requires i < |extensions|
    ensures Visited(listing, extensions[..i + 1]) == Visited(listing, extensions[..i]) + Glob(listing, extensions[i])
  {
    if i == 0 {
      assert extensions[..1][1..] == [];
    } else {
      assert extensions[1..][..i] == extensions[..i + 1][1..] && extensions[1..][..i - 1] == extensions[..i][1..];
      VisitedSplit(listing, extensions[1..], i - 1);
    }
  }

  /** One category's installation: the target directory and the manifest dict, which is loaded
      from `saved` and written back to it once a run. */
  class CategoryInstaller {
    const hash: Bytes -> Hash
    const category: string
    var target: Dir
    var manifest: Manifest
    var saved: Option<Manifest>
    ghost var wrote: Dir

    ghost function View(): Disk
      reads this
    {
      Disk(target, manifest, wrote)
    }

    /** What a run starts from: a manifest that is missing or cannot be read is empty. */
    ghost function OnDisk(): Disk
      reads this
    {
      Disk(target, if saved.Some? then saved.value else map[], wrote)
    }

    constructor (hash: Bytes -> Hash, category: string, target: Dir, saved: Option<Manifest>, ghost wrote: Dir)
      ensures OnDisk() == Disk(target, if saved.Some? then saved.value else map[], wrote)
      ensures this.hash == hash && this.category == category && this.saved == saved
    {
      this.hash, this.category := hash, category;
      this.target, this.manifest, this.saved, this.wrote := target, map[], saved, wrote;
    }

    method LoadManifest()
      modifies this`manifest
      ensures View() == OnDisk()
      ensures manifest == if saved.Some? then saved.value else map[]
    {
      manifest := match saved case Some(m) => m case None => map[];
    }

    method CopySource(e: Entry)
      modifies this`target, this`manifest, this`wrote
      ensures View() == Write(hash, category, e, old(View()))
    {
      target := target[e.name := e.content];
      manifest := manifest[Key(category, e.name) := hash(e.content)];
      wrote := wrote[e.name := e.content];
    }

    method PlanFileInstall(e: Entry) returns (plan: Plan)
      ensures plan == PlanFor(hash, category, e, View())
    {
      var key := Key(category, e.name);
      if !e.isFile {
        return Plan(key, SkipUnchanged, SourceMissing);
      }
      var sourceHash, installedHash := hash(e.content), Lookup(manifest, key);
      if e.name !in target {
        return Plan(key, Action.Install, NewFile);
      }
      var currentHash := hash(target[e.name]);
      if installedHash.None? {
        if sourceHash == currentHash {
          return Plan(key, SkipUnchanged, AlreadyMatches);
        }
        return Plan(key, Conflict, PreManifest);
      }
      if sourceHash == installedHash.value && installedHash.value == currentHash {
        return Plan(key, SkipUnchanged, NothingChanged);
      }
      if sourceHash != installedHash.value && currentHash == installedHash.value {
        return Plan(key, Update, SourceUpdated);
      }
      if sourceHash == installedHash.value && currentHash != installedHash.value {
        return Plan(key, SkipUserModified, UserCustomised);
      }
      return Plan(key, Conflict, BothModified);
    }

    method ExecuteFileInstall(e: Entry, plan: Plan) returns (line: Line)
      requires plan == PlanFor(hash, category, e, View())
      modifies this`target, this`manifest, this`wrote
      ensures View() == InstallFile(hash, category, e, old(View()))
      ensures line == Line(plan.key, plan.action)
    {
      if plan.action == Action.Install {
        CopySource(e);
      } else if plan.action == Update || plan.action == Conflict {
        target := target[BackupOf(e.name) := target[e.name]];
        CopySource(e);
      }
      line := Line(plan.key, plan.action);
    }

    /** The double loop over extensions and files. */
    method InstallFiles(listing: seq<Entry>, extensions: seq<string>) returns (lines: seq<Line>)
      modifies this`target, this`manifest, this`wrote
      ensures View() == InstallAll(hash, category, Visited(listing, extensions), old(View()))
      ensures lines == Lines(hash, category, Visited(listing, extensions), old(View()))
    {
      lines := [];
      ghost var start := View();
      for i := 0 to |extensions|
        invariant View() == InstallAll(hash, category, Visited(listing, extensions[..i]), start)
        invariant lines == Lines(hash, category, Visited(listing, extensions[..i]), start)
      {
        var found := Glob(listing, extensions[i]);
        ghost var before := Visited(listing, extensions[..i]);
        assert before + found[..0] == before;
        for j := 0 to |found|
          invariant View() == InstallAll(hash, category, before + found[..j], start)
          invariant lines == Lines(hash, category, before + found[..j], start)
        {
          OneMore(hash, category, before + found[..j], found[j], start);
          assert before + found[..j] + [found[j]] == before + found[..j + 1];
          if !found[j].isFile {
            continue;
          }
          var plan := PlanFileInstall(found[j]);
          var line := ExecuteFileInstall(found[j], plan);
          lines := lines + [line];
        }
        assert before + found[..|found|] == before + found;
        VisitedSplit(listing, extensions, i);
      }
      assert extensions[..|extensions|] == extensions;
    }

    /** `install_category`: one load, the double loop, one save. */
    method InstallCategory(listing: seq<Entry>, extensions: seq<string>) returns (lines: seq<Line>)
      modifies this
      ensures saved == Some(manifest)
      ensures Disk(target, saved.value, wrote) ==
              InstallAll(hash, category, Visited(listing, extensions),
                         old(Disk(target, if saved.Some? then saved.value else map[], wrote)))
      ensures lines == Lines(hash, category, Visited(listing, extensions), old(OnDisk()))
    {
      LoadManifest();
      lines := InstallFiles(listing, extensions);
      saved := Some(manifest);
    }
  }
}
