/** The rules SIM.Adapters.WebServer.WebServerManager applies to the web
    server's configuration: which host bindings are refused, how a binding
    is written, which application pools go with a deleted site, when a pool
    counts as running and where a site's web root is. The server itself is an
    in-memory state; committing changes is the update of that state. */
module WebServer {
  import opened Extensions

  /** The binding a caller asks for. */
  datatype BindingInfo = BindingInfo(protocol: string, ip: string, port: int, host: string)

  /** A binding as the server stores it: "IP:Port:Host" and a protocol. */
  datatype Binding = Binding(bindingInformation: string, protocol: string)

  datatype VirtualDirectory = VirtualDirectory(path: string, physicalPath: Option<string>)

  datatype Application = Application(path: string, applicationPoolName: string,
                                     virtualDirectories: seq<VirtualDirectory>)

  datatype Site = Site(id: int, name: string, bindings: seq<Binding>,
                       applications: seq<Application>, defaultApplicationPoolName: string)

  datatype WorkerProcessState = Starting | Running | Stopping | Unknown

  /** An application pool; a worker process entry may be null (None). */
  datatype ApplicationPool = ApplicationPool(name: string, workerProcesses: seq<Option<WorkerProcessState>>)

  // ---------------------------------------------------------------------
  // Binding strings

  function DigitChar(d: nat): char
    requires d < 10
  {
    ('0' as int + d) as char
  }

  predicate AllDigits(s: string)
  {
    forall i :: 0 <= i < |s| ==> '0' <= s[i] <= '9'
  }

  /** The number a string of decimal digits denotes. */
  function DigitsValue(s: string): nat
    requires AllDigits(s)
  {
    if s == [] then 0 else 10 * DigitsValue(s[..|s| - 1]) + (s[|s| - 1] as int - '0' as int)
  }

  /** Decimal digits of a natural number, most significant first. */
  function NatDigits(n: nat): (s: string)
    ensures |s| > 0 && AllDigits(s)
    ensures DigitsValue(s) == n
    ensures s[0] != '0' || n == 0
  {
    if n < 10 then [DigitChar(n)]
    else
      var front := NatDigits(n / 10);
      assert (front + [DigitChar(n % 10)])[..|front|] == front;
      front + [DigitChar(n % 10)]
  }

  /** How an int is printed: a minus sign for a negative number, then the
      digits of its magnitude. */
  function DecimalString(n: int): (s: string)
    ensures ':' !in s
    ensures n >= 0 ==> AllDigits(s) && DigitsValue(s) == n
    ensures n < 0 ==> |s| > 1 && s[0] == '-' && AllDigits(s[1..]) && DigitsValue(s[1..]) == -n
  {
    if n < 0 then
      var digits := NatDigits(-n);
      assert ("-" + digits)[1..] == digits;
      "-" + digits
    else NatDigits(n)
  }

  /** The binding information string built from a requested binding:
      "IP:Port:Host". A host without ':' is read back from its last field. */
  function BindingInformation(b: BindingInfo): (r: string)
    ensures ':' !in b.host ==> Host(Binding(r, b.protocol)) == b.host
  {
    AfterLastColonOfField(b.ip + ":" + DecimalString(b.port), b.host);
    b.ip + ":" + DecimalString(b.port) + ":" + b.host
  }

  /** The part of `s` after its last ':' (all of `s` when it has none). */
  function AfterLastColon(s: string): (r: string)
    ensures ':' !in r
    ensures |r| <= |s| && r == s[|s| - |r|..]
    ensures |r| == |s| || s[|s| - |r| - 1] == ':'
  {
    if s == [] then []
    else if s[|s| - 1] == ':' then []
    else AfterLastColon(s[..|s| - 1]) + [s[|s| - 1]]
  }

  /** The host a binding answers to: the last field of its binding information. */
  function Host(b: Binding): string
  {
    AfterLastColon(b.bindingInformation)
  }

  /** A host name (which has no ':') is read back from the field after the last ':'. */
  lemma {:induction false} AfterLastColonOfField(prefix: string, host: string)
    ensures ':' !in host ==> AfterLastColon(prefix + ":" + host) == host
  {
    var s := prefix + ":" + host;
    if ':' in host {
    } else if host == [] {
      assert s[|s| - 1] == ':';
    } else {
      var h' := host[..|host| - 1];
      assert s[..|s| - 1] == prefix + ":" + h';
      assert s[|s| - 1] == host[|host| - 1];
      assert host == h' + [host[|host| - 1]];
      AfterLastColonOfField(prefix, h');
    }
  }

  // ---------------------------------------------------------------------
  // Queries on sites

  /** Index of the first site named `name` ignoring case, or |sites|. */
  function SiteIndexByName(sites: seq<Site>, name: string): (k: nat)
    ensures k <= |sites|
    ensures k < |sites| ==> EqualsIgnoreCase(sites[k].name, name)
    ensures forall j :: 0 <= j < k ==> !EqualsIgnoreCase(sites[j].name, name)
  {
    FirstIndex(sites, (s: Site) => EqualsIgnoreCase(s.name, name))
  }

  /** Index of the first site with the given id, or |sites|. */
  function SiteIndexById(sites: seq<Site>, id: int): (k: nat)
    ensures k <= |sites|
    ensures k < |sites| ==> sites[k].id == id
    ensures forall j :: 0 <= j < k ==> sites[j].id != id
  {
    FirstIndex(sites, (s: Site) => s.id == id)
  }

  /** Whether one of the site's bindings answers to `host`, ignoring case. */
  function BindsHost(site: Site, host: string): (r: bool)
    ensures r <==> exists j :: 0 <= j < |site.bindings| && EqualsIgnoreCase(Host(site.bindings[j]), host)
  {
    FirstIndex(site.bindings, (b: Binding) => EqualsIgnoreCase(Host(b), host)) < |site.bindings|
  }

  /** Index of the first pool named `name` ignoring case, or |pools|. */
  function PoolIndex(pools: seq<ApplicationPool>, name: string): (k: nat)
    ensures k <= |pools|
    ensures k < |pools| ==> EqualsIgnoreCase(pools[k].name, name)
    ensures forall j :: 0 <= j < k ==> !EqualsIgnoreCase(pools[j].name, name)
  {
    FirstIndex(pools, (p: ApplicationPool) => EqualsIgnoreCase(p.name, name))
  }

  /** How many sites use the pool `name` (ignoring case) as their default pool. */
  function UsersOfPool(sites: seq<Site>, name: string): (r: nat)
    ensures r <= |sites|
    ensures r == 0 <==> forall i :: 0 <= i < |sites| ==> !EqualsIgnoreCase(sites[i].defaultApplicationPoolName, name)
  {
    if sites == [] then 0
    else (if EqualsIgnoreCase(sites[0].defaultApplicationPoolName, name) then 1 else 0)
         + UsersOfPool(sites[1..], name)
  }

  /** The pool count depends on the pool name only up to case. */
  lemma {:induction false} UsersOfPoolIgnoresCase(sites: seq<Site>, a: string, b: string)
    requires EqualsIgnoreCase(a, b)
    ensures UsersOfPool(sites, a) == UsersOfPool(sites, b)
  {
    if sites != [] {
      UsersOfPoolIgnoresCase(sites[1..], a, b);
    }
  }

  /** Pool names are unique up to case. */
  ghost predicate PoolNamesUnique(pools: seq<ApplicationPool>)
  {
    forall i, j :: 0 <= i < j < |pools| ==> !EqualsIgnoreCase(pools[i].name, pools[j].name)
  }

  /** One step of deleting a site: the pool named `name` (ignoring case) is
      removed when it exists and at most one site has it as default pool. */
  function RemovePoolIfUnshared(pools: seq<ApplicationPool>, sites: seq<Site>, name: string): (r: seq<ApplicationPool>)
    ensures r == pools || |r| == |pools| - 1
    ensures r != pools <==> (exists i :: 0 <= i < |pools| && EqualsIgnoreCase(pools[i].name, name))
                            && UsersOfPool(sites, name) <= 1
    ensures forall q :: q in r ==> q in pools
    ensures forall q :: q in pools && !EqualsIgnoreCase(q.name, name) ==> q in r
  {
    var p := PoolIndex(pools, name);
    if p < |pools| && UsersOfPool(sites, name) <= 1 then pools[..p] + pools[p + 1..] else pools
  }

  /** The pools left after deleting a site with applications `apps` from `sites`,
      application by application. */
  function PoolsAfterDelete(pools: seq<ApplicationPool>, sites: seq<Site>, apps: seq<Application>): (r: seq<ApplicationPool>)
    ensures |r| <= |pools|
    ensures forall q :: q in r ==> q in pools
    decreases |apps|
  {
    if apps == [] then pools
    else PoolsAfterDelete(RemovePoolIfUnshared(pools, sites, apps[0].applicationPoolName), sites, apps[1..])
  }

  /** Some application of `apps` runs in the pool `name`, ignoring case. */
  ghost predicate AppUsesPool(apps: seq<Application>, name: string)
  {
    exists i :: 0 <= i < |apps| && EqualsIgnoreCase(apps[i].applicationPoolName, name)
  }

  /** Whether deleting a site with applications `apps` dooms the pool `pool`. */
  ghost predicate PoolDoomed(pool: ApplicationPool, sites: seq<Site>, apps: seq<Application>)
  {
    UsersOfPool(sites, pool.name) <= 1 && AppUsesPool(apps, pool.name)
  }

  /** Removing one pool from a list of uniquely named pools keeps the others. */
  lemma RemovePoolAt(pools: seq<ApplicationPool>, p: nat, name: string)
    requires PoolNamesUnique(pools)
    requires p < |pools| && EqualsIgnoreCase(pools[p].name, name)
    ensures PoolNamesUnique(pools[..p] + pools[p + 1..])
    ensures forall q :: q in pools[..p] + pools[p + 1..] <==> q in pools && !EqualsIgnoreCase(q.name, name)
  {
    var rest := pools[..p] + pools[p + 1..];
    assert forall i :: 0 <= i < |rest| ==> rest[i] == pools[if i < p then i else i + 1];
    forall q | q in pools && !EqualsIgnoreCase(q.name, name)
      ensures q in rest
    {
      var i :| 0 <= i < |pools| && pools[i] == q;
      assert rest[if i < p then i else i - 1] == q;
    }
  }

  /** One step keeps names unique, and removes a pool exactly when its name
      matches and at most one site has it as default pool. */
  lemma RemovePoolIfUnsharedKeeps(pools: seq<ApplicationPool>, sites: seq<Site>, name: string)
    requires PoolNamesUnique(pools)
    ensures PoolNamesUnique(RemovePoolIfUnshared(pools, sites, name))
    ensures forall q :: q in RemovePoolIfUnshared(pools, sites, name) <==>
              q in pools && !(EqualsIgnoreCase(q.name, name) && UsersOfPool(sites, q.name) <= 1)
  {
    var p := PoolIndex(pools, name);
    if p < |pools| && UsersOfPool(sites, name) <= 1 {
      RemovePoolAt(pools, p, name);
    }
    forall q: ApplicationPool | EqualsIgnoreCase(q.name, name)
      ensures UsersOfPool(sites, q.name) == UsersOfPool(sites, name)
    {
      UsersOfPoolIgnoresCase(sites, q.name, name);
    }
  }

  /** Deleting a site removes exactly the pools it dooms and keeps the rest,
      and pool names stay unique. */
  lemma {:induction false} PoolsAfterDeleteKeeps(pools: seq<ApplicationPool>, sites: seq<Site>, apps: seq<Application>)
    requires PoolNamesUnique(pools)
    ensures PoolNamesUnique(PoolsAfterDelete(pools, sites, apps))
    ensures forall q :: q in PoolsAfterDelete(pools, sites, apps) <==> q in pools && !PoolDoomed(q, sites, apps)
    decreases |apps|
  {
    if apps != [] {
      var name := apps[0].applicationPoolName;
      RemovePoolIfUnsharedKeeps(pools, sites, name);
      PoolsAfterDeleteKeeps(RemovePoolIfUnshared(pools, sites, name), sites, apps[1..]);
      forall q: ApplicationPool
        ensures AppUsesPool(apps, q.name) <==> EqualsIgnoreCase(name, q.name) || AppUsesPool(apps[1..], q.name)
      {
        if AppUsesPool(apps[1..], q.name) {
          var i :| 0 <= i < |apps[1..]| && EqualsIgnoreCase(apps[1..][i].applicationPoolName, q.name);
          assert apps[i + 1] == apps[1..][i];
        }
        if AppUsesPool(apps, q.name) && !EqualsIgnoreCase(name, q.name) {
          var i :| 0 <= i < |apps| && EqualsIgnoreCase(apps[i].applicationPoolName, q.name);
          assert apps[1..][i - 1] == apps[i];
        }
      }
    }
  }

  /** The pool count does not tell the deleted site from the others: a pool one
      of the deleted site's applications runs in is removed even when its only
      default user is another site, which keeps it as default pool. */
  lemma PoolOfOtherSiteRemoved(pools: seq<ApplicationPool>, sites: seq<Site>, k: nat, q: ApplicationPool)
    requires PoolNamesUnique(pools) && q in pools && k < |sites|
    requires AppUsesPool(sites[k].applications, q.name)
    requires UsersOfPool(sites, q.name) == 1
    requires !EqualsIgnoreCase(sites[k].defaultApplicationPoolName, q.name)
    ensures q !in PoolsAfterDelete(pools, sites, sites[k].applications)
    ensures exists j :: 0 <= j < |sites| && j != k && EqualsIgnoreCase(sites[j].defaultApplicationPoolName, q.name)
  {
    PoolsAfterDeleteKeeps(pools, sites, sites[k].applications);
  }

  /** The root ("/") application or virtual directory. */
  predicate IsRootApplication(a: Application) { a.path == "/" }
  predicate IsRootDirectory(v: VirtualDirectory) { v.path == "/" }

  /** `i` and `j` locate the "/" virtual directory of the "/" application. */
  ghost predicate RootDirectoryAt(site: Site, i: int, j: int)
  {
    && 0 <= i < |site.applications|
    && IsRootApplication(site.applications[i])
    && (forall i' :: 0 <= i' < i ==> !IsRootApplication(site.applications[i']))
    && 0 <= j < |site.applications[i].virtualDirectories|
    && IsRootDirectory(site.applications[i].virtualDirectories[j])
    && (forall j' :: 0 <= j' < j ==> !IsRootDirectory(site.applications[i].virtualDirectories[j']))
  }

  /** The physical path of the site's root; a site without a usable one is
      reported as corrupted, by its id. */
  function GetWebRootPath(site: Site): (r: Result<string, int>)
    ensures r.Failure? ==> r.error == site.id
    ensures r.Success? ==> r.value != ""
    ensures r.Success? <==> exists i, j :: RootDirectoryAt(site, i, j)
                              && site.applications[i].virtualDirectories[j].physicalPath.Some?
                              && site.applications[i].virtualDirectories[j].physicalPath.value != ""
    ensures forall i, j :: RootDirectoryAt(site, i, j) && r.Success? ==>
              site.applications[i].virtualDirectories[j].physicalPath == Some(r.value)
  {
    var i := FirstIndex(site.applications, IsRootApplication);
    if i == |site.applications| then Failure(site.id)
    else
      var dirs := site.applications[i].virtualDirectories;
      var j := FirstIndex(dirs, IsRootDirectory);
      if j == |dirs| then Failure(site.id)
      else match dirs[j].physicalPath
        case Some(path) =>
          if path != "" then
            assert RootDirectoryAt(site, i, j);
            Success(path)
          else Failure(site.id)
        case None => Failure(site.id)
  }

  predicate IsRunningWorker(w: Option<WorkerProcessState>) { w == Some(Running) }

  /** A pool is running when one of its (non-null) worker processes is. */
  function IsApplicationPoolRunning(pool: ApplicationPool): (r: bool)
    ensures r <==> exists i :: 0 <= i < |pool.workerProcesses| && pool.workerProcesses[i] == Some(Running)
  {
    |pool.workerProcesses| > 0
    && FirstIndex(pool.workerProcesses, IsRunningWorker) < |pool.workerProcesses|
  }

  // ---------------------------------------------------------------------
  // The server state

  ghost predicate SiteIdsUnique(sites: seq<Site>)
  {
    forall i, j :: 0 <= i < j < |sites| ==> sites[i].id != sites[j].id
  }

  /** Removing a site keeps the remaining ids unique, and its id is gone. */
  lemma RemoveSiteKeepsIdsUnique(sites: seq<Site>, k: nat)
    requires SiteIdsUnique(sites) && k < |sites|
    ensures SiteIdsUnique(sites[..k] + sites[k + 1..])
    ensures forall s :: s in sites[..k] + sites[k + 1..] ==> s.id != sites[k].id
  {
    var rest := sites[..k] + sites[k + 1..];
    forall a, b | 0 <= a < b < |rest|
      ensures rest[a].id != rest[b].id
    {
      var a' := if a < k then a else a + 1;
      var b' := if b < k then b else b + 1;
      assert rest[a] == sites[a'] && rest[b] == sites[b'];
    }
    forall s | s in rest
      ensures s.id != sites[k].id
    {
      var i :| 0 <= i < |rest| && rest[i] == s;
      if i < k { assert sites[i] == s; } else { assert sites[i + 1] == s; }
    }
  }

  /** Replacing a site by one with the same id keeps ids unique. */
  lemma ReplaceSiteKeepsIdsUnique(sites: seq<Site>, k: nat, site: Site)
    requires SiteIdsUnique(sites) && k < |sites| && site.id == sites[k].id
    ensures SiteIdsUnique(sites[k := site])
  {
    forall i | 0 <= i < |sites|
      ensures sites[k := site][i].id == sites[i].id
    {
    }
  }

  /** The web server's configuration: its sites and application pools. */
  class ServerManager {
    var sites: seq<Site>
    var applicationPools: seq<ApplicationPool>

    /** Site ids are unique and pool names are unique up to case. */
    ghost predicate Valid()
      reads this
    {
      SiteIdsUnique(sites) && PoolNamesUnique(applicationPools)
    }

    constructor (sites: seq<Site>, applicationPools: seq<ApplicationPool>)
      requires SiteIdsUnique(sites)
      requires PoolNamesUnique(applicationPools)
      ensures Valid()
      ensures this.sites == sites && this.applicationPools == applicationPools
    {
      this.sites := sites;
      this.applicationPools := applicationPools;
    }

    /** Whether some binding of some site answers to `host`, ignoring case. */
    function HostBindingExists(host: string): (r: bool)
      reads this
      ensures r <==> exists i, j :: 0 <= i < |sites| && 0 <= j < |sites[i].bindings|
                                    && EqualsIgnoreCase(Host(sites[i].bindings[j]), host)
    {
      FirstIndex(sites, (s: Site) => BindsHost(s, host)) < |sites|
    }

    /** Whether some site is named `name`, ignoring case. */
    function WebsiteExists(name: string): (r: bool)
      reads this
      ensures r <==> exists i :: 0 <= i < |sites| && EqualsIgnoreCase(sites[i].name, name)
    {
      SiteIndexByName(sites, name) < |sites|
    }

    /** Adds a binding to the first site named `siteName` (ignoring case), unless
        the host is already bound anywhere or no such site exists. */
    method AddHostBinding(siteName: string, binding: BindingInfo) returns (added: bool)
      requires Valid()
      modifies this
      ensures Valid()
      ensures applicationPools == old(applicationPools)
      ensures added <==> !old(HostBindingExists(binding.host)) && old(WebsiteExists(siteName))
      ensures !added ==> sites == old(sites)
      ensures added ==> var k := SiteIndexByName(old(sites), siteName);
                        var site := old(sites)[k];
                        sites == old(sites)[k := site.(bindings := site.bindings + [Binding(BindingInformation(binding), binding.protocol)])]
      ensures added && ':' !in binding.host ==> HostBindingExists(binding.host)
    {
      var k := SiteIndexByName(sites, siteName);
      if HostBindingExists(binding.host) || k == |sites| {
        return false;
      }
      var information := BindingInformation(binding);
      var site := sites[k];
      var newBinding := Binding(information, binding.protocol);
      ReplaceSiteKeepsIdsUnique(sites, k, site.(bindings := site.bindings + [newBinding]));
      sites := sites[k := site.(bindings := site.bindings + [newBinding])];
      if ':' !in binding.host {
        assert sites[k].bindings[|site.bindings|] == newBinding;
      }
      return true;
    }

    /** Deletes the site at index `k` together with the pools only it uses. */
    method DeleteWebsite(k: nat)
      requires Valid() && k < |sites|
      modifies this
      ensures Valid()
      ensures sites == old(sites[..k] + sites[k + 1..])
      ensures applicationPools == PoolsAfterDelete(old(applicationPools), old(sites), old(sites[k].applications))
    {
      var apps := sites[k].applications;
      var i := 0;
      while i < |apps|
        invariant i <= |apps|
        invariant sites == old(sites)
        invariant PoolNamesUnique(applicationPools)
        invariant PoolsAfterDelete(applicationPools, sites, apps[i..]) == PoolsAfterDelete(old(applicationPools), sites, apps)
      {
        var poolName := apps[i].applicationPoolName;
        var p := PoolIndex(applicationPools, poolName);
        assert apps[i..][1..] == apps[i + 1..];
        ghost var before := applicationPools;
        RemovePoolIfUnsharedKeeps(applicationPools, sites, poolName);
        if p < |applicationPools| && UsersOfPool(sites, poolName) <= 1 {
          applicationPools := applicationPools[..p] + applicationPools[p + 1..];
        }
        assert applicationPools == RemovePoolIfUnshared(before, sites, poolName);
        i := i + 1;
      }
      RemoveSiteKeepsIdsUnique(sites, k);
      sites := sites[..k] + sites[k + 1..];
    }

    /** Deletes the site with the given id, if there is one. */
    method DeleteWebsiteById(id: int)
      requires Valid()
      modifies this
      ensures Valid()
      ensures forall s :: s in sites ==> s.id != id
      ensures var k := SiteIndexById(old(sites), id);
              if k == |old(sites)| then sites == old(sites) && applicationPools == old(applicationPools)
              else sites == old(sites[..k] + sites[k + 1..])
                   && applicationPools == PoolsAfterDelete(old(applicationPools), old(sites), old(sites[k].applications))
    {
      var k := SiteIndexById(sites, id);
      if k < |sites| {
        RemoveSiteKeepsIdsUnique(sites, k);
        DeleteWebsite(k);
      }
    }

    /** Deletes the first site named `name` (ignoring case), if there is one. */
    method DeleteWebsiteByName(name: string)
      requires Valid()
      modifies this
      ensures Valid()
      ensures var k := SiteIndexByName(old(sites), name);
              if k == |old(sites)| then sites == old(sites) && applicationPools == old(applicationPools)
              else sites == old(sites[..k] + sites[k + 1..])
                   && applicationPools == PoolsAfterDelete(old(applicationPools), old(sites), old(sites[k].applications))
    {
      var k := SiteIndexByName(sites, name);
      if k < |sites| {
        DeleteWebsite(k);
      }
    }
  }
}
