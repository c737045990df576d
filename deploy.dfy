/** The address listing of `hardhat/scripts/deploy.ts`: from the entries of the Ignition deployments
    directory and what reading each `deployed_addresses.json` yields, the deployments found, in
    scan order, and the network-to-address record written out. */
module Deploy {
  import opened Js

  /** One entry of `readdirSync(deploymentsDir, { withFileTypes: true })`. */
  datatype DirEntry = DirEntry(name: string, isDirectory: bool)

  /** What reading `<dir>/deployed_addresses.json` gives: no such file, a read or JSON error (or a
      JSON value whose properties cannot be read), or the string properties of the parsed object. */
  datatype DirResult = Missing | ReadFail | Parsed(fields: map<string, string>)

  datatype Deployment = Deployment(network: string, address: string, chainId: NumberValue)

  /** How the script ends: exit code 1 with nothing written, or the file written and exit code 0. */
  datatype Outcome =
    | NoDeploymentsDir
    | NoDeployments
    | Saved(deployments: seq<Deployment>, counter: map<string, string>)

  const ChainPrefix := "chain-"
  const CounterKey := "CounterModule#Counter"

  function ExitCode(o: Outcome): nat {
    if o.Saved? then 0 else 1
  }

  // ---------------------------------------------------------------------------
  // Scanning the deployments directory

  predicate IsChainDir(e: DirEntry) {
    e.isDirectory && HasPrefix(e.name, ChainPrefix)
  }

  /** `.filter(dirent => dirent.isDirectory() && dirent.name.startsWith("chain-")).map(dirent => dirent.name)` */
  function ChainDirs(entries: seq<DirEntry>): (dirs: seq<string>)
    ensures |dirs| <= |entries|
    ensures forall d :: d in dirs ==> HasPrefix(d, ChainPrefix)
  {
    if entries == [] then []
    else (if IsChainDir(entries[0]) then [entries[0].name] else []) + ChainDirs(entries[1..])
  }

  /** A name is scanned exactly when some entry with that name is a directory named `chain-...`. */
  lemma {:induction false} ChainDirsMembers(entries: seq<DirEntry>, name: string)
    ensures name in ChainDirs(entries) <==> exists e :: e in entries && IsChainDir(e) && e.name == name
  {
    if entries != [] {
      ChainDirsMembers(entries[1..], name);
      assert forall e :: e in entries <==> e == entries[0] || e in entries[1..];
    }
  }

  /** The filter keeps the listing's order: scanning two listings one after the other is scanning
      their concatenation. */
  lemma {:induction false} ChainDirsAppend(a: seq<DirEntry>, b: seq<DirEntry>)
    ensures ChainDirs(a + b) == ChainDirs(a) + ChainDirs(b)
  {
    if a == [] {
      assert a + b == b;
    } else {
      assert (a + b)[0] == a[0];
      assert (a + b)[1..] == a[1..] + b;
      var head := if IsChainDir(a[0]) then [a[0].name] else [];
      assert ChainDirs(a + b) == head + ChainDirs(a[1..] + b);
      assert ChainDirs(a) == head + ChainDirs(a[1..]);
      ChainDirsAppend(a[1..], b);
    }
  }

  // ---------------------------------------------------------------------------
  // Chain ids and network names

  /** `parseInt(dir.replace("chain-", ""))` */
  function ChainIdOf(dir: string): NumberValue {
    ParseInt(RemoveFirst(dir, ChainPrefix))
  }

  /** The ids in the `chainIdToNetwork` table. */
  predicate KnownChain(id: NumberValue) {
    id == Int(11155111) || id == Int(31337) || id == Int(1)
  }

  /** `chainIdToNetwork[chainId] || `chain-${chainId}`` */
  function NetworkName(id: NumberValue): string {
    if id == Int(11155111) then "sepolia"
    else if id == Int(31337) then "localhost"
    else if id == Int(1) then "mainnet"
    else ChainPrefix + NumberText(id)
  }

  /** Table names and fallback names never collide: a name starts with `chain-` exactly when the id
      is not in the table. */
  lemma FallbackNamesMarked(id: NumberValue)
    ensures HasPrefix(NetworkName(id), ChainPrefix) <==> !KnownChain(id)
  {
    if KnownChain(id) {
      assert NetworkName(id)[0] != ChainPrefix[0];
    } else {
      assert (ChainPrefix + NumberText(id))[..|ChainPrefix|] == ChainPrefix;
    }
  }

  /** The `chain-` prefix a scanned name starts with is the text `replace` removes. */
  lemma ChainSuffix(dir: string)
    requires HasPrefix(dir, ChainPrefix)
    ensures RemoveFirst(dir, ChainPrefix) == dir[|ChainPrefix|..]
  {
  }

  /** For the directory Ignition creates for chain `i`, the network name is the table's name when the
      table has `i`, and otherwise the directory's own name. */
  lemma NetworkOfChainDir(i: int)
    ensures ChainIdOf(ChainPrefix + IntText(i)) == Int(i)
    ensures NetworkName(ChainIdOf(ChainPrefix + IntText(i)))
            == if KnownChain(Int(i)) then NetworkName(Int(i)) else ChainPrefix + IntText(i)
  {
    var dir := ChainPrefix + IntText(i);
    assert dir[..|ChainPrefix|] == ChainPrefix;
    assert dir[|ChainPrefix|..] == IntText(i);
    ParseIntText(i);
  }

  // ---------------------------------------------------------------------------
  // Collecting deployments

  /** The deployment a directory contributes: only a parsed file with a truthy `CounterModule#Counter`. */
  function RecordOf(dir: string, read: string -> DirResult): Option<Deployment> {
    match read(dir)
    case Parsed(fields) =>
      if CounterKey in fields && fields[CounterKey] != "" then
        Some(Deployment(NetworkName(ChainIdOf(dir)), fields[CounterKey], ChainIdOf(dir)))
      else None
    case _ => None
  }

  /** The deployments found in `dirs`, in scan order. */
  function Collected(dirs: seq<string>, read: string -> DirResult): seq<Deployment> {
    if dirs == [] then []
    else
      var rest := Collected(dirs[..|dirs| - 1], read);
      match RecordOf(dirs[|dirs| - 1], read)
      case Some(d) => rest + [d]
      case None => rest
  }

  /** The loop over the scanned directories, appending one deployment per readable address file. */
  method CollectDeployments(dirs: seq<string>, read: string -> DirResult) returns (deployments: seq<Deployment>)
    ensures deployments == Collected(dirs, read)
  {
    deployments := [];
    for i := 0 to |dirs|
      invariant deployments == Collected(dirs[..i], read)
    {
      var dir := dirs[i];
      var chainId := ParseInt(RemoveFirst(dir, ChainPrefix));
      var networkName := NetworkName(chainId);
      match read(dir) {
        case Parsed(fields) =>
          if CounterKey in fields && fields[CounterKey] != "" {
            deployments := deployments + [Deployment(networkName, fields[CounterKey], chainId)];
          }
        case Missing =>
        case ReadFail =>
      }
      assert dirs[..i + 1][..i] == dirs[..i];
    }
    assert dirs[..|dirs|] == dirs;
  }

  /** Scanning two runs of directories one after the other only appends. */
  lemma {:induction false} CollectedAppend(a: seq<string>, b: seq<string>, read: string -> DirResult)
    ensures Collected(a + b, read) == Collected(a, read) + Collected(b, read)
    decreases |b|
  {
    if b == [] {
      assert a + b == a;
    } else {
      var b' := b[..|b| - 1];
      assert (a + b)[..|a + b| - 1] == a + b';
      assert (a + b)[|a + b| - 1] == b[|b| - 1];
      CollectedAppend(a, b', read);
    }
  }

  /** A directory whose file is missing, unreadable or has no address is skipped, and only it. */
  lemma SkipsOnlyThatDirectory(a: seq<string>, dir: string, b: seq<string>, read: string -> DirResult)
    requires RecordOf(dir, read) == None
    ensures Collected(a + [dir] + b, read) == Collected(a, read) + Collected(b, read)
  {
    CollectedAppend(a + [dir], b, read);
    CollectedAppend(a, [dir], read);
    assert [dir][..0] == [];
  }

  /** What is collected is exactly the records of the scanned directories that have one. */
  lemma {:induction false} CollectedMembers(dirs: seq<string>, read: string -> DirResult, d: Deployment)
    ensures d in Collected(dirs, read) <==> exists dir :: dir in dirs && RecordOf(dir, read) == Some(d)
  {
    if dirs != [] {
      var init := dirs[..|dirs| - 1];
      CollectedMembers(init, read, d);
      assert dirs == init + [dirs[|dirs| - 1]];
      assert forall dir :: dir in dirs <==> dir in init || dir == dirs[|dirs| - 1];
    }
  }

  /** At most one deployment per scanned directory. */
  lemma {:induction false} CollectedLength(dirs: seq<string>, read: string -> DirResult)
    ensures |Collected(dirs, read)| <= |dirs|
  {
    if dirs != [] {
      CollectedLength(dirs[..|dirs| - 1], read);
    }
  }

  // ---------------------------------------------------------------------------
  // The network-to-address record

  /** `deployments.reduce((acc, dep) => { acc[dep.network] = dep.address; return acc; }, {})` */
  function Record(deps: seq<Deployment>): map<string, string> {
    if deps == [] then map[]
    else Record(deps[..|deps| - 1])[deps[|deps| - 1].network := deps[|deps| - 1].address]
  }

  /** The `reduce`, assigning into the accumulator one deployment at a time. */
  method Aggregate(deps: seq<Deployment>) returns (counter: map<string, string>)
    ensures counter == Record(deps)
  {
    counter := map[];
    for i := 0 to |deps|
      invariant counter == Record(deps[..i])
    {
      counter := counter[deps[i].network := deps[i].address];
      assert deps[..i + 1][..i] == deps[..i];
    }
    assert deps[..|deps|] == deps;
  }

  /** The record has one key per network name that occurs among the deployments. */
  lemma {:induction false} RecordKeys(deps: seq<Deployment>)
    ensures Record(deps).Keys == set d | d in deps :: d.network
  {
    if deps != [] {
      var init := deps[..|deps| - 1];
      RecordKeys(init);
      assert deps == init + [deps[|deps| - 1]];
      assert forall d :: d in deps <==> d in init || d == deps[|deps| - 1];
    }
  }

  /** Later entries win: a network's address is that of its last deployment. */
  lemma {:induction false} RecordLastWins(deps: seq<Deployment>, i: int)
    requires 0 <= i < |deps|
    requires forall j :: i < j < |deps| ==> deps[j].network != deps[i].network
    ensures deps[i].network in Record(deps) && Record(deps)[deps[i].network] == deps[i].address
  {
    if i < |deps| - 1 {
      var init := deps[..|deps| - 1];
      RecordLastWins(init, i);
    }
  }

  // ---------------------------------------------------------------------------
  // The script

  /** `main` without its console output: stop with exit code 1 when the deployments directory is
      missing (before any scan) or when no deployment is found (before any write); otherwise write
      the record of the deployments found. */
  method ListDeployments(dirExists: bool, entries: seq<DirEntry>, read: string -> DirResult)
    returns (outcome: Outcome)
    ensures !dirExists ==> outcome == NoDeploymentsDir
    ensures dirExists ==>
      var found := Collected(ChainDirs(entries), read);
      outcome == if found == [] then NoDeployments else Saved(found, Record(found))
    ensures ExitCode(outcome) == 1 <==> !dirExists || Collected(ChainDirs(entries), read) == []
  {
    if !dirExists {
      return NoDeploymentsDir;
    }
    var dirs := ChainDirs(entries);
    var deployments := CollectDeployments(dirs, read);
    if |deployments| == 0 {
      return NoDeployments;
    }
    var counter := Aggregate(deployments);
    outcome := Saved(deployments, counter);
  }
}
