/**
 * Building a password authentication from a `clouds.yaml` file: the search for the file in
 * three fixed places, and the resolution of one named cloud with its defaults. The file system,
 * file reading and YAML parsing are parameters.
 */
module Config {
  import opened Wrappers
  import opened Errors
  import opened Http
  import opened Identity

  const CurrentConfig: string := "./clouds.yaml"
  const HomeConfig: string := ".config/openstack/clouds.yaml"
  const SystemConfig: string := "/etc/openstack/clouds.yaml"
  const NotFoundMessage: string := "clouds.yaml was not found in any location"
  const DefaultDomain: string := "Default"

  /** The file-system facts the search uses: which paths are files, canonicalization, the home directory. */
  datatype FileSystem = FileSystem(
    isFile: string -> bool,
    canonicalize: string -> Option<string>,
    homeDir: Option<string>)

  /** `PathBuf::push` of a relative path: a separator is added unless the base is empty or already ends in one. */
  function PushPath(base: string, relative: string): (r: string)
    ensures |r| >= |base| + |relative| && r[..|base|] == base && r[|r| - |relative|..] == relative
    ensures r[|base|..|r| - |relative|] == (if base != [] && base[|base| - 1] != '/' then "/" else "")
  {
    if base != [] && base[|base| - 1] != '/' then base + "/" + relative else base + relative
  }

  // ---------------------------------------------------------------------------
  // find_config
  // ---------------------------------------------------------------------------

  /** A place to look: the current-directory file is reported canonicalized, the others as they are. */
  datatype Candidate = Canonicalized(path: string) | AsIs(path: string)

  /** The places searched, in order; the home candidate exists only when there is a home directory. */
  function Candidates(homeDir: Option<string>): (r: seq<Candidate>)
    ensures |r| == if homeDir.Some? then 3 else 2
    ensures r[0] == Canonicalized(CurrentConfig) && r[|r| - 1] == AsIs(SystemConfig)
    ensures homeDir.Some? ==> r[1] == AsIs(PushPath(homeDir.value, HomeConfig))
  {
    [Canonicalized(CurrentConfig)]
    + (if homeDir.Some? then [AsIs(PushPath(homeDir.value, HomeConfig))] else [])
    + [AsIs(SystemConfig)]
  }

  /** What looking at one place finds: a file there, and for the canonicalized place a canonical path. */
  function Probe(fs: FileSystem, c: Candidate): (r: Option<string>)
    ensures r.Some? ==> fs.isFile(c.path)
    ensures c.AsIs? ==> r == (if fs.isFile(c.path) then Some(c.path) else None)
    ensures c.Canonicalized? && fs.isFile(c.path) ==> r == fs.canonicalize(c.path)
  {
    if !fs.isFile(c.path) then None
    else match c
      case Canonicalized(p) => fs.canonicalize(p)
      case AsIs(p) => Some(p)
  }

  /** The first place, in order, where something is found. */
  function FirstFound(fs: FileSystem, cs: seq<Candidate>): (r: Option<string>)
    ensures r.Some? ==> exists i :: 0 <= i < |cs| && Probe(fs, cs[i]) == r
  {
    if cs == [] then None
    else if Probe(fs, cs[0]).Some? then Probe(fs, cs[0])
    else
      var rest := FirstFound(fs, cs[1..]);
      assert rest.Some? ==> exists i :: 1 <= i < |cs| && cs[i] == cs[1..][i - 1] && Probe(fs, cs[1..][i - 1]) == rest;
      rest
  }

  /** The first place that finds something decides the result, whatever comes after it. */
  lemma {:induction false} FirstFoundIsFirst(fs: FileSystem, cs: seq<Candidate>, i: nat)
    requires i < |cs| && Probe(fs, cs[i]).Some?
    requires forall j :: 0 <= j < i ==> Probe(fs, cs[j]).None?
    ensures FirstFound(fs, cs) == Probe(fs, cs[i])
  {
    if i > 0 {
      FirstFoundIsFirst(fs, cs[1..], i - 1);
    }
  }

  /** Nothing is found exactly when no place finds anything. */
  lemma {:induction false} FirstFoundNone(fs: FileSystem, cs: seq<Candidate>)
    ensures FirstFound(fs, cs).None? <==> forall j :: 0 <= j < |cs| ==> Probe(fs, cs[j]).None?
  {
    if cs != [] {
      FirstFoundNone(fs, cs[1..]);
      assert forall j :: 1 <= j < |cs| ==> cs[j] == cs[1..][j - 1];
    }
  }

  /** `find_config`: the current directory, then the home directory (if any), then the system directory. */
  method FindConfig(fs: FileSystem) returns (r: Option<string>)
    ensures r == FirstFound(fs, Candidates(fs.homeDir))
  {
    var cs := Candidates(fs.homeDir);
    var current := CurrentConfig;
    if fs.isFile(current) {
      match fs.canonicalize(current) {
        case Some(val) =>
          FirstFoundIsFirst(fs, cs, 0);
          return Some(val);
        case None =>
      }
    }
    if fs.homeDir.Some? {
      var home := fs.homeDir.value;
      home := PushPath(home, HomeConfig);
      if fs.isFile(home) {
        FirstFoundIsFirst(fs, cs, 1);
        return Some(home);
      }
    }
    var abs := SystemConfig;
    if fs.isFile(abs) {
      FirstFoundIsFirst(fs, cs, |cs| - 1);
      r := Some(abs);
    } else {
      FirstFoundNone(fs, cs);
      r := None;
    }
  }

  /** A current-directory file that canonicalizes wins. */
  lemma CurrentDirectoryWins(fs: FileSystem, canonical: string)
    requires fs.isFile(CurrentConfig) && fs.canonicalize(CurrentConfig) == Some(canonical)
    ensures FirstFound(fs, Candidates(fs.homeDir)) == Some(canonical)
  {
    FirstFoundIsFirst(fs, Candidates(fs.homeDir), 0);
  }

  /** A current-directory file that cannot be canonicalized is passed over, as if it were absent. */
  lemma UncanonicalizableFallsThrough(fs: FileSystem)
    requires fs.canonicalize(CurrentConfig).None?
    ensures FirstFound(fs, Candidates(fs.homeDir)) == FirstFound(fs, Candidates(fs.homeDir)[1..])
  {
  }

  /** Without a home directory only the current and system directories are searched. */
  lemma NoHomeSkipsHome(fs: FileSystem)
    requires fs.homeDir.None?
    ensures Candidates(fs.homeDir) == [Canonicalized(CurrentConfig), AsIs(SystemConfig)]
    ensures FirstFound(fs, Candidates(fs.homeDir))
      == if fs.isFile(CurrentConfig) && fs.canonicalize(CurrentConfig).Some? then fs.canonicalize(CurrentConfig)
         else if fs.isFile(SystemConfig) then Some(SystemConfig) else None
  {
    var cs := Candidates(fs.homeDir);
    assert cs[1..] == [AsIs(SystemConfig)];
    assert cs[1..][1..] == [];
    assert FirstFound(fs, cs[1..]) == if fs.isFile(SystemConfig) then Some(SystemConfig) else None;
  }

  /** The home file is used when the current directory finds nothing, even if the system file exists. */
  lemma HomeBeforeSystem(fs: FileSystem, home: string)
    requires Probe(fs, Canonicalized(CurrentConfig)).None?
    requires fs.homeDir == Some(home) && fs.isFile(PushPath(home, HomeConfig))
    ensures FirstFound(fs, Candidates(fs.homeDir)) == Some(PushPath(home, HomeConfig))
  {
    FirstFoundIsFirst(fs, Candidates(fs.homeDir), 1);
  }

  /** A home directory with no trailing separator gets one before the relative path. */
  lemma HomePathExample()
    ensures PushPath("/home/user", HomeConfig) == "/home/user/.config/openstack/clouds.yaml"
  {
    var home := "/home/user";
    assert home[|home| - 1] == 'r';
    var r := home + "/" + HomeConfig;
    assert forall i :: 0 <= i < |r| ==> r[i] == "/home/user/.config/openstack/clouds.yaml"[i];
  }

  // ---------------------------------------------------------------------------
  // from_config
  // ---------------------------------------------------------------------------

  datatype Auth = Auth(
    authUrl: string,
    password: string,
    projectName: Option<string>,
    projectDomainName: Option<string>,
    username: string,
    userDomainName: Option<string>)

  datatype Cloud = Cloud(auth: Auth, regionName: Option<string>)

  /** An opened configuration file, read by the YAML parser. */
  type FileHandle = nat

  /**
   * Finding, opening and parsing the file and picking the named cloud, each failure an
   * `InvalidConfig` error with its own message.
   */
  function LoadCloud(cloudName: string, found: Option<string>,
                     openFile: string -> Result<FileHandle, string>,
                     parseClouds: FileHandle -> Result<map<string, Cloud>, string>): (r: Result<Cloud, Error>)
    ensures r.Failure? ==> r.error.kind == InvalidConfig && r.error.status.None?
    ensures found.None? ==> r == Failure(NewError(InvalidConfig, NotFoundMessage))
    ensures found.Some? && openFile(found.value).Failure? ==>
      r == Failure(NewError(InvalidConfig, "Cannot read config.yaml: " + openFile(found.value).error))
    ensures found.Some? && openFile(found.value).Success? && parseClouds(openFile(found.value).value).Failure? ==>
      r == Failure(NewError(InvalidConfig, "Cannot parse clouds.yaml: " + parseClouds(openFile(found.value).value).error))
    ensures r.Success? <==>
      found.Some? && openFile(found.value).Success? && parseClouds(openFile(found.value).value).Success?
      && cloudName in parseClouds(openFile(found.value).value).value
    ensures r.Success? ==> r.value == parseClouds(openFile(found.value).value).value[cloudName]
    ensures found.Some? && openFile(found.value).Success? && parseClouds(openFile(found.value).value).Success?
            && cloudName !in parseClouds(openFile(found.value).value).value ==>
      r == Failure(NewError(InvalidConfig, "No such cloud: " + cloudName))
  {
    match found
    case None => Failure(NewError(InvalidConfig, NotFoundMessage))
    case Some(path) =>
      match openFile(path)
      case Failure(e) => Failure(NewError(InvalidConfig, "Cannot read config.yaml: " + e))
      case Success(file) =>
        match parseClouds(file)
        case Failure(e) => Failure(NewError(InvalidConfig, "Cannot parse clouds.yaml: " + e))
        case Success(clouds) =>
          if cloudName in clouds then Success(clouds[cloudName])
          else Failure(NewError(InvalidConfig, "No such cloud: " + cloudName))
  }

  /** The settings a cloud entry gives the password authentication. */
  datatype PasswordSettings = PasswordSettings(
    authUrl: string,
    user: UserAndPassword,
    scope: Option<ProjectScope>,
    region: Option<string>)

  function SettingsOf(cloud: Cloud): (r: PasswordSettings)
    ensures r.authUrl == cloud.auth.authUrl
    ensures r.user.name == cloud.auth.username && r.user.password == cloud.auth.password
    ensures cloud.auth.userDomainName.Some? ==> r.user.domainName == cloud.auth.userDomainName.value
    ensures cloud.auth.projectName.None? ==> r.scope.None?
  {
    var auth := cloud.auth;
    var userDomain := auth.userDomainName.GetOr(DefaultDomain);
    var projectDomain := auth.projectDomainName.GetOr(DefaultDomain);
    PasswordSettings(
      auth.authUrl,
      UserAndPassword(auth.username, auth.password, userDomain),
      if auth.projectName.Some? then Some(ProjectScope(auth.projectName.value, projectDomain)) else None,
      cloud.regionName)
  }

  /** No file in any place: the not-found configuration error. */
  lemma NoConfigFileFails(fs: FileSystem, cloudName: string,
                          openFile: string -> Result<FileHandle, string>,
                          parseClouds: FileHandle -> Result<map<string, Cloud>, string>)
    requires forall j :: 0 <= j < |Candidates(fs.homeDir)| ==> Probe(fs, Candidates(fs.homeDir)[j]).None?
    ensures LoadCloud(cloudName, FirstFound(fs, Candidates(fs.homeDir)), openFile, parseClouds)
      == Failure(Error(InvalidConfig, "clouds.yaml was not found in any location", None))
  {
    FirstFoundNone(fs, Candidates(fs.homeDir));
  }

  /** A parsed file without the named cloud: `No such cloud: <name>`; with it, that cloud's entry. */
  lemma CloudLookup(cloudName: string, path: string,
                    openFile: string -> Result<FileHandle, string>,
                    parseClouds: FileHandle -> Result<map<string, Cloud>, string>)
    requires openFile(path).Success? && parseClouds(openFile(path).value).Success?
    ensures var clouds := parseClouds(openFile(path).value).value;
      LoadCloud(cloudName, Some(path), openFile, parseClouds)
        == if cloudName in clouds then Success(clouds[cloudName])
           else Failure(Error(InvalidConfig, "No such cloud: " + cloudName, None))
  {
  }

  /** Both domains default to `Default`; given ones are kept. */
  lemma DomainsDefault(cloud: Cloud)
    ensures SettingsOf(cloud).user.domainName
      == if cloud.auth.userDomainName.Some? then cloud.auth.userDomainName.value else "Default"
    ensures SettingsOf(cloud).scope.Some? ==>
      (SettingsOf(cloud).scope.value.projectDomainName
        == if cloud.auth.projectDomainName.Some? then cloud.auth.projectDomainName.value else "Default")
  {
  }

  /** A project scope exactly when a project is named (a project domain alone is ignored); a region exactly when named. */
  lemma ScopeAndRegionOnlyWhenNamed(cloud: Cloud)
    ensures SettingsOf(cloud).scope.Some? <==> cloud.auth.projectName.Some?
    ensures SettingsOf(cloud).scope.Some? ==> SettingsOf(cloud).scope.value.projectName == cloud.auth.projectName.value
    ensures SettingsOf(cloud).region == cloud.regionName
  {
  }

  /**
   * `from_config`: the named cloud of the first configuration file found, made into a password
   * authentication with its defaults, project scope and region applied.
   */
  method FromConfig(cloudName: string, fs: FileSystem,
                    openFile: string -> Result<FileHandle, string>,
                    parseClouds: FileHandle -> Result<map<string, Cloud>, string>,
                    intoUrl: string -> Result<Url, Error>)
    returns (r: Result<Password, Error>)
    ensures var loaded := LoadCloud(cloudName, FirstFound(fs, Candidates(fs.homeDir)), openFile, parseClouds);
      && (loaded.Failure? ==> r == Failure(loaded.error))
      && (loaded.Success? ==>
            var s := SettingsOf(loaded.value);
            && (intoUrl(s.authUrl).Failure? ==> r == Failure(intoUrl(s.authUrl).error))
            && (intoUrl(s.authUrl).Success? ==>
                  && r.Success? && fresh(r.value)
                  && r.value.authUrl == intoUrl(s.authUrl).value
                  && r.value.tokenEndpoint == TokenEndpoint(intoUrl(s.authUrl).value)
                  && r.value.body == AuthRoot(["password"], s.user, s.scope)
                  && r.value.region == s.region
                  && r.value.cached.None?))
  {
    var found := FindConfig(fs);
    if found.None? {
      return Failure(NewError(InvalidConfig, NotFoundMessage));
    }
    var file := openFile(found.value);
    if file.Failure? {
      return Failure(NewError(InvalidConfig, "Cannot read config.yaml: " + file.error));
    }
    var root := parseClouds(file.value);
    if root.Failure? {
      return Failure(NewError(InvalidConfig, "Cannot parse clouds.yaml: " + root.error));
    }
    if cloudName !in root.value {
      return Failure(NewError(InvalidConfig, "No such cloud: " + cloudName));
    }
    var cloud := root.value[cloudName];
    var auth := cloud.auth;
    var userDomain := auth.userDomainName.GetOr(DefaultDomain);
    var projectDomain := auth.projectDomainName.GetOr(DefaultDomain);
    var created := NewWithClient(auth.authUrl, intoUrl, auth.username, auth.password, userDomain);
    if created.Failure? {
      return Failure(created.error);
    }
    var id := created.value;
    if auth.projectName.Some? {
      id.SetProjectScope(auth.projectName.value, projectDomain);
    }
    if cloud.regionName.Some? {
      id.SetRegion(cloud.regionName.value);
    }
    r := Success(id);
  }
}
