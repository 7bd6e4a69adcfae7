/** secret_store.py on the crashing disk: the overwrite procedure as written, the
    YAML provider, and the two interface functions over a list of providers. */
module SecretStore {
  import opened Wrappers

  import opened CrashFS

  /** The system calls, each of which raises when told to; history records every
      state the disk has been in. */
  class Disk {
    var fs: FS
    ghost var history: seq<FS>

    constructor ()
      ensures fs == NO_FILES && Wf(fs) && Shows(fs, {None}) && history == [fs]
    {
      fs, history := NO_FILES, [NO_FILES];
    }

    method Settle(after: FS)
      modifies this
      ensures fs == after && history == old(history) + [after]
    {
      fs := after;
      history := history + [after];
    }

    method UnlinkTmp(raises: bool) returns (ok: bool)
      modifies this
      ensures ok == (!raises && Tmp in old(fs).dir)
      ensures fs == if ok then Unlink(old(fs), Tmp) else old(fs)
      ensures history == old(history) + [fs]
    {
      ok := !raises && Tmp in fs.dir;
      Settle(if ok then Unlink(fs, Tmp) else fs);
    }

    method OpenExclusive(raises: bool) returns (fd: Option<nat>)
      modifies this
      ensures fd == if raises || Tmp in old(fs).dir then None else Some(old(fs).next)
      ensures fs == if fd.Some? then Create(old(fs), Tmp) else old(fs)
      ensures history == old(history) + [fs]
    {
      fd := if raises || Tmp in fs.dir then None else Some(fs.next);
      Settle(if fd.Some? then Create(fs, Tmp) else fs);
    }

    method WriteFlush(fd: nat, content: Content, raises: bool, partial: Content)
      modifies this
      ensures fs == Write(old(fs), fd, if raises then partial else content)
      ensures history == old(history) + [fs]
    {
      Settle(Write(fs, fd, if raises then partial else content));
    }

    method Fsync(fd: nat, raises: bool)
      modifies this
      ensures fs == if raises then old(fs) else SyncFile(old(fs), fd)
      ensures history == old(history) + [fs]
    {
      Settle(if raises then fs else SyncFile(fs, fd));
    }

    method FsyncDir(raises: bool)
      modifies this
      ensures fs == if raises then old(fs) else SyncDir(old(fs))
      ensures history == old(history) + [fs]
    {
      Settle(if raises then fs else SyncDir(fs));
    }

    method RenameTmpToDest(raises: bool) returns (ok: bool)
      modifies this
      ensures ok == (!raises && Tmp in old(fs).dir)
      ensures fs == if ok then Rename(old(fs), Tmp, Dest) else old(fs)
      ensures history == old(history) + [fs]
    {
      ok := !raises && Tmp in fs.dir;
      Settle(if ok then Rename(fs, Tmp, Dest) else fs);
    }

    /** Every state recorded since the earlier history was safe: a crash in it uncovers an old
        content or the new one. */
    ghost predicate Recorded(earlier: seq<FS>, c: set<Option<Content>>, content: Content)
      reads this
    {
      earlier <= history && AllSafe(history[|earlier|..], c, content)
    }

    /** The body of the try block. */
    method WriteAside(content: Content, plan: Plan, ghost c: set<Option<Content>>) returns (ok: bool)
      requires plan.failAt > 0 && Stage(fs, c, content, 1)
      modifies this
      ensures fs == Last(Steps(old(fs), content, plan, 1))
      ensures ok == (plan.failAt >= |PROGRAM|)
      ensures Stopped(fs, c, content, plan)
      ensures Recorded(old(history), c, content)
    {
      StageAdvances(fs, c, content, 1);
      StepsUnfold(fs, content, plan, 1);
      if plan.failAt == 1 { FailureStops(fs, c, content, plan); }
      var fd := OpenExclusive(plan.failAt == 1);
      if fd.None? {
        return false;
      }
      StageIsSafe(fs, c, content, 2, plan);
      ok := FillAndSync(fd.value, content, plan, c);
    }

    /** Through the descriptor of the new file. */
    method FillAndSync(fd: nat, content: Content, plan: Plan, ghost c: set<Option<Content>>) returns (ok: bool)
      requires plan.failAt > 1 && Stage(fs, c, content, 2) && Lookup(fs, Tmp) == Some(fd)
      modifies this
      ensures fs == Last(Steps(old(fs), content, plan, 2))
      ensures ok == (plan.failAt >= |PROGRAM|)
      ensures Stopped(fs, c, content, plan)
      ensures Recorded(old(history), c, content)
    {
      StageAdvances(fs, c, content, 2);
      StepsUnfold(fs, content, plan, 2);
      if plan.failAt == 2 { FailureStops(fs, c, content, plan); }
      WriteFlush(fd, content, plan.failAt == 2, plan.partial);
      if plan.failAt == 2 {
        return false;
      }
      StageIsSafe(fs, c, content, 3, plan);
      ok := SyncAndPublish(fd, content, plan, c);
    }

    method SyncAndPublish(fd: nat, content: Content, plan: Plan, ghost c: set<Option<Content>>) returns (ok: bool)
      requires plan.failAt > 2 && Stage(fs, c, content, 3) && Lookup(fs, Tmp) == Some(fd)
      modifies this
      ensures fs == Last(Steps(old(fs), content, plan, 3))
      ensures ok == (plan.failAt >= |PROGRAM|)
      ensures Stopped(fs, c, content, plan)
      ensures Recorded(old(history), c, content)
    {
      StageAdvances(fs, c, content, 3);
      StepsUnfold(fs, content, plan, 3);
      if plan.failAt == 3 { FailureStops(fs, c, content, plan); }
      Fsync(fd, plan.failAt == 3);
      if plan.failAt == 3 {
        return false;
      }
      StageIsSafe(fs, c, content, 4, plan);
      ok := Publish(content, plan, c);
    }

    /** From the first directory sync on. */
    method Publish(content: Content, plan: Plan, ghost c: set<Option<Content>>) returns (ok: bool)
      requires plan.failAt > 3 && Stage(fs, c, content, 4)
      modifies this
      ensures fs == Last(Steps(old(fs), content, plan, 4))
      ensures ok == (plan.failAt >= |PROGRAM|)
      ensures Stopped(fs, c, content, plan)
      ensures Recorded(old(history), c, content)
    {
      StageAdvances(fs, c, content, 4);
      StepsUnfold(fs, content, plan, 4);
      if plan.failAt == 4 { FailureStops(fs, c, content, plan); }
      FsyncDir(plan.failAt == 4);
      if plan.failAt == 4 {
        return false;
      }
      StageIsSafe(fs, c, content, 5, plan);
      ok := RenameAndSync(content, plan, c);
    }

    method RenameAndSync(content: Content, plan: Plan, ghost c: set<Option<Content>>) returns (ok: bool)
      requires plan.failAt > 4 && Stage(fs, c, content, 5)
      modifies this
      ensures fs == Last(Steps(old(fs), content, plan, 5))
      ensures ok == (plan.failAt >= |PROGRAM|)
      ensures Stopped(fs, c, content, plan)
      ensures Recorded(old(history), c, content)
    {
      StageAdvances(fs, c, content, 5);
      StepsUnfold(fs, content, plan, 5);
      if plan.failAt == 5 { FailureStops(fs, c, content, plan); }
      var renamed := RenameTmpToDest(plan.failAt == 5);
      if !renamed {
        return false;
      }
      StageIsSafe(fs, c, content, 6, plan);
      StageAdvances(fs, c, content, 6);
      StepsUnfold(fs, content, plan, 6);
      if plan.failAt == 6 { FailureStops(fs, c, content, plan); }
      FsyncDir(plan.failAt == 6);
      if plan.failAt == 6 {
        return false;
      }
      StageIsSafe(fs, c, content, 7, plan);
      return true;
    }

    /** atomic_overwrite, for a destination that shows c at entry.  The stale file
        goes before the try block; the finally clause ignores its own errors. */
    method AtomicOverwrite(content: Content, plan: Plan, ghost c: set<Option<Content>>) returns (ok: bool)
      requires Wf(fs) && Shows(fs, c)
      modifies this
      ensures fs == Last(Overwrite(old(fs), content, plan))
      ensures ok == (plan.failAt >= |PROGRAM|)
      ensures Stopped(fs, c, content, plan)
      ensures Recorded(old(history), c, content)
      ensures Tmp in fs.dir <==>
                (2 <= plan.failAt <= 5 && plan.cleanupFails) || (plan.failAt == 0 && Tmp in old(fs).dir)
      ensures plan.failAt <= 5 ==> Read(fs, Dest) == Read(old(fs), Dest)
      ensures forall m :: Read(fs, Other(m)) == Read(old(fs), Other(m))
    {
      OverwriteCleansUp(fs, content, plan);
      FirstStep(fs, c, content, plan);
      ok := RemoveStaleTmp(plan.failAt == 0);
      if !ok {
        return false;
      }
      ok := TryFinally(content, plan, c);
    }

    /** The try statement: its body, then the finally clause either way. */
    method TryFinally(content: Content, plan: Plan, ghost c: set<Option<Content>>) returns (ok: bool)
      requires plan.failAt > 0 && Stage(fs, c, content, 1)
      modifies this
      ensures fs == Cleanup(Last(Steps(old(fs), content, plan, 1)), plan)
      ensures ok == (plan.failAt >= |PROGRAM|)
      ensures Stopped(fs, c, content, plan)
      ensures Recorded(old(history), c, content)
    {
      ok := WriteAside(content, plan, c);
      FinallyUnlink(plan, content, c);
    }

    method FinallyUnlink(plan: Plan, content: Content, ghost c: set<Option<Content>>)
      requires plan.failAt > 0 && Stopped(fs, c, content, plan)
      modifies this
      ensures fs == Cleanup(old(fs), plan) && Stopped(fs, c, content, plan)
      ensures if plan.cleanupFails then fs == old(fs) else Tmp !in fs.dir
      ensures fs.data == old(fs).data && forall n :: n != Tmp ==> Lookup(fs, n) == Lookup(old(fs), n)
      ensures history == old(history) + [fs]
    {
      CleanupStops(fs, c, content, plan);
      var ignored := UnlinkTmp(plan.cleanupFails);
    }

    method RemoveStaleTmp(raises: bool) returns (ok: bool)
      modifies this
      ensures ok == !raises
      ensures fs == if raises then old(fs) else Unlink(old(fs), Tmp)
      ensures history == old(history) + [fs]
    {
      ok := !raises;
      Settle(if Tmp in fs.dir && !raises then Unlink(fs, Tmp) else fs);
    }
  }

  // -------------------------------------------------------------- the YAML provider

  datatype Found = Absent | Secret(secret: string) | Raises

  /** The stored map: an absent file is an empty one, a file that is no document
      cannot be loaded. */
  function CredMap(c: Option<Content>): Option<map<string, string>> {
    match c
    case None => Some(map[])
    case Some(Doc(m)) => Some(m)
    case Some(Raw(_)) => None
  }

  function YamlLookup(c: Option<Content>, key: string): Found {
    if key == "" || CredMap(c).None? then Raises
    else if key in CredMap(c).value then Secret(CredMap(c).value[key]) else Absent
  }

  class YamlConfLookup {
    const disk: Disk

    constructor (disk: Disk)
      ensures this.disk == disk
    {
      this.disk := disk;
    }

    method Lookup(key: string) returns (r: Found)
      ensures r == YamlLookup(Read(disk.fs, Dest), key)
      ensures r.Raises? <==> key == "" || (Read(disk.fs, Dest).Some? && Read(disk.fs, Dest).value.Raw?)
      ensures r.Secret? <==>
                && key != "" && Read(disk.fs, Dest).Some? && Read(disk.fs, Dest).value.Doc?
                && key in Read(disk.fs, Dest).value.entries
      ensures r.Secret? ==> r.secret == Read(disk.fs, Dest).value.entries[key]
    {
      if key == "" {
        return Raises;
      }
      if Dest !in disk.fs.dir {
        return Absent;
      }
      var content := Read(disk.fs, Dest);
      match content {
        case None => return Absent;
        case Some(Doc(credmap)) => return if key in credmap then Secret(credmap[key]) else Absent;
        case Some(Raw(_)) => return Raises;
      }
    }

    /** A normal return has replaced one key of the map, durably.  However the call
        ends, and wherever it is cut short by a crash, the destination has a content
        it could have before (c; the stored map itself, if that was durable) or the
        map with that key replaced. */
    method Store(key: string, secret: string, plan: Plan, ghost c: set<Option<Content>>) returns (ok: bool)
      requires Wf(disk.fs) && Shows(disk.fs, c)
      modifies disk
      ensures var before := CredMap(Read(old(disk.fs), Dest));
              && ok == (key != "" && secret != "" && before.Some? && plan.failAt >= |PROGRAM|)
              && (ok ==> Read(disk.fs, Dest) == Some(Doc(before.value[key := secret])))
              && (ok ==> Shows(disk.fs, {Read(disk.fs, Dest)}))
              && (before.Some? ==> disk.Recorded(old(disk.history), c, Doc(before.value[key := secret])))
              && Wf(disk.fs)
    {
      if key == "" || secret == "" {
        return false;
      }
      var content := Read(disk.fs, Dest);
      var loaded := CredMap(content);
      if loaded.None? {
        return false;
      }
      var credmap := loaded.value[key := secret];
      ok := disk.AtomicOverwrite(Doc(credmap), plan, c);
    }
  }

  /** What has been stored last under a key. */
  ghost predicate StoredLast(pairs: seq<(string, string)>, key: string, at: int) {
    0 <= at < |pairs| && pairs[at].0 == key && forall j :: at < j < |pairs| ==> pairs[j].0 != key
  }

  lemma StoredLastStep(pairs: seq<(string, string)>, p: (string, string), key: string, at: int)
    requires StoredLast(pairs + [p], key, at)
    ensures if key == p.0 then at == |pairs| else StoredLast(pairs, key, at)
  {
    var all := pairs + [p];
    assert all[|pairs|] == p;
    assert forall j :: 0 <= j < |pairs| ==> all[j] == pairs[j];
  }

  /** Any sequence of stores that succeed, from a disk without the file: a key that
      was never stored is absent, and any other has the secret stored last. */
  method StoreAll(yaml: YamlConfLookup, pairs: seq<(string, string)>, plans: seq<Plan>, ghost c: set<Option<Content>>)
    requires Wf(yaml.disk.fs) && Shows(yaml.disk.fs, c) && Read(yaml.disk.fs, Dest) == None
    requires |plans| == |pairs|
    requires forall i :: 0 <= i < |pairs| ==> pairs[i].0 != "" && pairs[i].1 != "" && plans[i].failAt >= |PROGRAM|
    modifies yaml.disk
    ensures forall key, at :: key != "" && StoredLast(pairs, key, at) ==>
              YamlLookup(Read(yaml.disk.fs, Dest), key) == Secret(pairs[at].1)
    ensures forall key :: key != "" && (forall j :: 0 <= j < |pairs| ==> pairs[j].0 != key) ==>
              YamlLookup(Read(yaml.disk.fs, Dest), key) == Absent
  {
    ghost var now := c;
    for i := 0 to |pairs|
      invariant Wf(yaml.disk.fs) && Shows(yaml.disk.fs, now)
      invariant CredMap(Read(yaml.disk.fs, Dest)).Some?
      invariant forall key, at :: key != "" && StoredLast(pairs[..i], key, at) ==>
                  YamlLookup(Read(yaml.disk.fs, Dest), key) == Secret(pairs[at].1)
      invariant forall key :: key != "" && (forall j :: 0 <= j < i ==> pairs[j].0 != key) ==>
                  YamlLookup(Read(yaml.disk.fs, Dest), key) == Absent
    {
      ghost var was := Read(yaml.disk.fs, Dest);
      var ok := yaml.Store(pairs[i].0, pairs[i].1, plans[i], now);
      now := {Read(yaml.disk.fs, Dest)};
      assert pairs[..i + 1] == pairs[..i] + [pairs[i]];
      assert YamlLookup(Read(yaml.disk.fs, Dest), pairs[i].0) == Secret(pairs[i].1);
      forall key | key != "" && key != pairs[i].0
        ensures YamlLookup(Read(yaml.disk.fs, Dest), key) == YamlLookup(was, key)
      {
      }
      forall key, at | StoredLast(pairs[..i + 1], key, at)
        ensures if key == pairs[i].0 then at == i else StoredLast(pairs[..i], key, at)
      {
        StoredLastStep(pairs[..i], pairs[i], key, at);
      }
      forall key | key != "" && (forall j :: 0 <= j < i + 1 ==> pairs[j].0 != key)
        ensures YamlLookup(Read(yaml.disk.fs, Dest), key) == Absent
      {
        assert pairs[i].0 != key;
        assert YamlLookup(was, key) == Absent;
      }
    }
    assert pairs[..|pairs|] == pairs;
  }

  /** A crash anywhere in a store leaves a content the destination could show
      before, or the visible map with that one key replaced. */
  lemma CrashedStore(fs: FS, c: set<Option<Content>>, key: string, secret: string, plan: Plan, at: nat, after: FS)
    requires Wf(fs) && Shows(fs, c) && CredMap(Read(fs, Dest)).Some?
    requires Possible(fs, Cut(Doc(CredMap(Read(fs, Dest)).value[key := secret]), plan, at, after))
    ensures Read(after, Dest) in c || Read(after, Dest) == Some(Doc(CredMap(Read(fs, Dest)).value[key := secret]))
    ensures Shows(after, {Read(after, Dest)})
  {
    EventKeepsOutlook(fs, c, Cut(Doc(CredMap(Read(fs, Dest)).value[key := secret]), plan, at, after));
  }

  /** When the visible map was durable this is the old map or the new one; every
      other key reads as before. */
  lemma CrashedSettledStore(fs: FS, key: string, secret: string, plan: Plan, at: nat, after: FS)
    requires Wf(fs) && Shows(fs, {Read(fs, Dest)}) && CredMap(Read(fs, Dest)).Some? && key != ""
    requires Possible(fs, Cut(Doc(CredMap(Read(fs, Dest)).value[key := secret]), plan, at, after))
    ensures var m := CredMap(Read(fs, Dest)).value;
            CredMap(Read(after, Dest)) in {Some(m), Some(m[key := secret])}
    ensures forall k :: k != key ==> YamlLookup(Read(after, Dest), k) == YamlLookup(Read(fs, Dest), k)
    ensures YamlLookup(Read(after, Dest), key) in {YamlLookup(Read(fs, Dest), key), Secret(secret)}
  {
    CrashedStore(fs, {Read(fs, Dest)}, key, secret, plan, at, after);
  }

  // ------------------------------------------------------------- the list of providers

  /** A provider as lookup_secret sees it: a keyring, which may be out of order, the
      YAML file, or the environment.  The last looks up a variable named "key",
      whatever key it is asked for. */
  datatype Provider =
    | Keyring(secrets: map<string, string>, broken: bool)
    | YamlFile(content: Option<Content>)
    | Environment(variable: Option<string>)

  function ProviderLookup(p: Provider, key: string): Found {
    match p
    case Keyring(secrets, broken) =>
      if key == "" || broken then Raises else if key in secrets then Secret(secrets[key]) else Absent
    case YamlFile(content) => YamlLookup(content, key)
    case Environment(variable) =>
      if key == "" then Raises else if variable.Some? then Secret(variable.value) else Absent
  }

  /** What a provider that answers has to say: the secret exactly if it holds one. */
  lemma ProviderAnswers(p: Provider, key: string, secret: string)
    ensures ProviderLookup(p, key) == Secret(secret) <==>
              key != "" && ((p.Keyring? && !p.broken && key in p.secrets && p.secrets[key] == secret)
                            || (p.YamlFile? && p.content.Some? && p.content.value.Doc?
                                && key in p.content.value.entries && p.content.value.entries[key] == secret)
                            || p == Environment(Some(secret)))
    ensures ProviderLookup(p, key) == Absent <==>
              key != "" && ((p.Keyring? && !p.broken && key !in p.secrets)
                            || (p.YamlFile? && (p.content == None ||
                                                (p.content.value.Doc? && key !in p.content.value.entries)))
                            || p == Environment(None))
  {
  }

  datatype LookupResult = NotInitialized | ProviderError | NotFound | Got(secret: string, locations: nat)

  /** lookup_secret asks every provider, keeps the first secret found and counts
      the places that have one. */
  method LookupSecret(providers: seq<Provider>, key: string) returns (r: LookupResult)
    ensures r.NotInitialized? <==> providers == []
    ensures r.ProviderError? <==> exists i :: 0 <= i < |providers| && ProviderLookup(providers[i], key).Raises?
    ensures r.NotFound? <==>
              && providers != []
              && forall i :: 0 <= i < |providers| ==> ProviderLookup(providers[i], key).Absent?
    ensures r.Got? ==>
              && r.locations == |set i | 0 <= i < |providers| && ProviderLookup(providers[i], key).Secret?|
              && exists i :: 0 <= i < |providers| && ProviderLookup(providers[i], key) == Secret(r.secret)
                   && forall j :: 0 <= j < i ==> ProviderLookup(providers[j], key).Absent?
  {
    if providers == [] {
      return NotInitialized;
    }
    var firstFound: Option<string> := None;
    var found: nat := 0;
    ghost var at := 0;
    ghost var places: set<int> := {};
    for n := 0 to |providers|
      invariant forall i :: 0 <= i < n ==> !ProviderLookup(providers[i], key).Raises?
      invariant firstFound == None ==> forall i :: 0 <= i < n ==> ProviderLookup(providers[i], key).Absent?
      invariant firstFound.Some? ==>
                  && 0 <= at < n && ProviderLookup(providers[at], key) == Secret(firstFound.value)
                  && forall j :: 0 <= j < at ==> ProviderLookup(providers[j], key).Absent?
      invariant places == set i | 0 <= i < n && ProviderLookup(providers[i], key).Secret?
      invariant found == |places| && (found == 0 <==> firstFound == None)
    {
      var here := ProviderLookup(providers[n], key);
      match here {
        case Raises => return ProviderError;
        case Absent =>
        case Secret(secret) =>
          if firstFound == None {
            firstFound := Some(secret);
            at := n;
          }
          places := places + {n};
          found := found + 1;
      }
    }
    if found == 0 {
      return NotFound;
    }
    return Got(firstFound.value, found);
  }

  /** The keyring; broken says that its calls raise. */
  class LibsecretLookup {
    var secrets: map<string, string>
    const broken: bool

    constructor (secrets: map<string, string>, broken: bool)
      ensures this.secrets == secrets && this.broken == broken
    {
      this.secrets, this.broken := secrets, broken;
    }

    method Lookup(key: string) returns (r: Found)
      ensures r == ProviderLookup(Keyring(secrets, broken), key)
    {
      if key == "" || broken {
        return Raises;
      }
      return if key in secrets then Secret(secrets[key]) else Absent;
    }

    method Store(key: string, secret: string) returns (ok: bool)
      modifies this
      ensures ok == (key != "" && secret != "" && !broken)
      ensures secrets == if ok then old(secrets)[key := secret] else old(secrets)
    {
      if key == "" || secret == "" || broken {
        return false;
      }
      secrets := secrets[key := secret];
      return true;
    }
  }

  /** The first provider, where secrets are stored. */
  datatype Place =
    | InKeyring(ring: LibsecretLookup)
    | InFile(file: YamlConfLookup)
    | InEnvironment(variable: Option<string>)

  function Owned(p: Place): set<object> {
    match p
    case InKeyring(ring) => {ring}
    case InFile(file) => {file.disk}
    case InEnvironment(_) => {}
  }

  function AsProvider(p: Place): Provider
    reads Owned(p)
  {
    match p
    case InKeyring(ring) => Keyring(ring.secrets, ring.broken)
    case InFile(file) => YamlFile(Read(file.disk.fs, Dest))
    case InEnvironment(variable) => Environment(variable)
  }

  /** The provider takes the secret: the keyring if it works, the YAML file if it
      loads and no step of the overwrite raises, the environment never. */
  predicate Stores(p: Provider, key: string, secret: string, plan: Plan) {
    && key != "" && secret != ""
    && match p
       case Keyring(_, broken) => !broken
       case YamlFile(content) => CredMap(content).Some? && plan.failAt >= |PROGRAM|
       case Environment(_) => false
  }

  method LookupIn(p: Place, key: string) returns (r: Found)
    ensures r == ProviderLookup(AsProvider(p), key)
  {
    match p {
      case InKeyring(ring) => r := ring.Lookup(key);
      case InFile(file) => r := file.Lookup(key);
      case InEnvironment(variable) => r := ProviderLookup(Environment(variable), key);
    }
  }

  /** store_secret, with its check that the secret can be read back. */
  method StoreSecret(first: Place, key: string, secret: string, plan: Plan, ghost c: set<Option<Content>>)
    returns (ok: bool)
    requires first.InFile? ==> Wf(first.file.disk.fs) && Shows(first.file.disk.fs, c)
    modifies Owned(first)
    ensures ok == Stores(old(AsProvider(first)), key, secret, plan)
    ensures ok ==> forall k :: k != "" ==>
              ProviderLookup(AsProvider(first), k)
              == if k == key then Secret(secret) else ProviderLookup(old(AsProvider(first)), k)
  {
    match first {
      case InKeyring(ring) => ok := ring.Store(key, secret);
      case InFile(file) => ok := file.Store(key, secret, plan, c);
      case InEnvironment(_) => ok := false;
    }
    if ok {
      var back := LookupIn(first, key);
      ok := back == Secret(secret);
    }
  }

  /** store_secret, then lookup_secret over the whole list: if the first provider
      takes the secret it comes back whatever the later providers hold, if and only
      if none of them raises. */
  method StoreThenLookup(first: Place, others: seq<Provider>, key: string, secret: string, plan: Plan,
                         ghost c: set<Option<Content>>)
    returns (ok: bool, r: LookupResult)
    requires first.InFile? ==> Wf(first.file.disk.fs) && Shows(first.file.disk.fs, c)
    modifies Owned(first)
    ensures ok == Stores(old(AsProvider(first)), key, secret, plan)
    ensures ok ==> (r.Got? && r.secret == secret
                    <==> forall i :: 0 <= i < |others| ==> !ProviderLookup(others[i], key).Raises?)
    ensures ok ==> forall k :: k != key && k != "" ==>
              ProviderLookup(AsProvider(first), k) == ProviderLookup(old(AsProvider(first)), k)
  {
    ok := StoreSecret(first, key, secret, plan, c);
    r := NotFound;
    if ok {
      var providers := [AsProvider(first)] + others;
      assert ProviderLookup(providers[0], key) == Secret(secret);
      assert forall i :: 0 <= i < |others| ==> providers[i + 1] == others[i];
      r := LookupSecret(providers, key);
    }
  }
}
