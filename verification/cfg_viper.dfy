/** The configuration-source resolver of package cfgViper: how the `--config`
    locator picks between the default search, a local file and a remote
    etcd key, and how a remote locator is cut into the provider, endpoint,
    key path and config type handed to viper. Each fatal log of the source
    becomes an `Error` value. */
module CfgViper {
  import opened GoStrings
  import opened FilePath

  /** The parts of a `net/url.URL` the resolver reads. */
  datatype Url = Url(scheme: string, host: string, path: string)

  /** What `url.Parse` gave for the locator. */
  datatype ParseOutcome = Parsed(url: Url) | ParseFailed

  /** The `--config` flag's text together with its parse. */
  datatype Locator = Locator(raw: string, parsed: ParseOutcome)

  /** The startup failures, each a `klog.Fatalf` in the source. */
  datatype ErrorKind =
    | InvalidLocator(locator: string)        // url.Parse failed
    | InvalidScheme(scheme: string)          // etcd scheme without "+protocol"
    | UnsupportedProvider(provider: string)  // provider other than etcd
    | MissingExtension                       // remote path without an extension

  /** Where viper is told to read its configuration from. */
  datatype Source =
    | Search(cfgName: string)   // no --config: look for cfgName in the default directories
    | Local(file: string)       // viper.SetConfigFile(file)
    | Remote(provider: string, endpoint: string, path: string, configType: string)
    | Error(kind: ErrorKind)

  const Etcd: string := "etcd"

  /** The scheme prefix of every locator the etcd branch accepts. */
  const EtcdPrefix: string := Etcd + "+"

  /** `p` is the text of `s` before its first `+`, or all of `s` when it has
      no `+`. */
  predicate IsFirstField(p: string, s: string) {
    HasPrefix(s, p) && '+' !in p && (|p| == |s| || s[|p|] == '+')
  }

  /** An outcome of the remote branch: a descriptor or one of its own errors. */
  predicate IsRemoteOutcome(r: Source) {
    r.Remote? || (r.Error? && !r.kind.InvalidLocator?)
  }

  /** `Config.SetRemoteConfig`: the provider is the scheme up to its first
      `+`, only etcd is accepted and it needs a protocol after the `+`; the
      endpoint is protocol://host, the path is the URL path as it is, and the
      config type is the path's extension without its dot. */
  function SetRemoteConfig(u: Url): (r: Source)
    ensures IsRemoteOutcome(r)
    ensures r.Remote? <==> HasPrefix(u.scheme, EtcdPrefix) && '.' in LastElement(u.path)
    ensures r.Remote? ==>
      && r.provider == Etcd
      && r.endpoint == u.scheme[|EtcdPrefix|..] + "://" + u.host
      && r.path == u.path
      && '.' !in r.configType
      && IsSuffix("." + r.configType, LastElement(u.path))
  {
    // strings.SplitN with n = 2 never returns an empty slice (SplitN2's
    // contract), so the source's `len(schemes) < 1` check cannot fire.
    var schemes := SplitN2(u.scheme, '+');
    EtcdSchemeSplit(u.scheme);
    var provider := schemes[0];
    if provider != Etcd then
      Error(UnsupportedProvider(provider))
    else if |schemes| < 2 then
      Error(InvalidScheme(u.scheme))
    else
      EtcdDescriptor(schemes[1] + "://" + u.host, u.path)
  }

  /** The end of `SetRemoteConfig` once the scheme is accepted: the config
      type is the path's extension without its dot, and a path without one
      is an error. */
  function EtcdDescriptor(endpoint: string, path: string): (r: Source)
    ensures r.Remote? <==> '.' in LastElement(path)
    ensures !r.Remote? ==> r == Error(MissingExtension)
    ensures r.Remote? ==>
      && r.provider == Etcd && r.endpoint == endpoint && r.path == path
      && '.' !in r.configType
      && IsSuffix("." + r.configType, LastElement(path))
  {
    var ext := Ext(path);
    if ext == "" then Error(MissingExtension)
    else
      assert ext == "." + ext[1..];
      Remote(Etcd, endpoint, path, ext[1..])
  }

  /** How the first `SplitN` part decides the branch taken: a scheme splits
      into provider etcd and a protocol exactly when it starts with `etcd+`
      (the protocol is then the rest of it), into etcd alone exactly when it
      is `etcd`, and otherwise its first part, the text before the first
      `+`, is some other provider. */
  lemma EtcdSchemeSplit(scheme: string)
    ensures var parts := SplitN2(scheme, '+');
      HasPrefix(scheme, EtcdPrefix) <==> |parts| == 2 && parts[0] == Etcd
    ensures var parts := SplitN2(scheme, '+');
      HasPrefix(scheme, EtcdPrefix) ==> parts[1] == scheme[|EtcdPrefix|..]
  {
    if HasPrefix(scheme, EtcdPrefix) {
      assert scheme == Etcd + "+" + scheme[|EtcdPrefix|..];
      SplitN2AtFirst(scheme, '+', Etcd, scheme[|EtcdPrefix|..]);
    }
  }

  /** The first part is the text before the first `+`, and it is etcd
      alone exactly when the scheme is `etcd`. */
  lemma SchemeFirstField(scheme: string)
    ensures var parts := SplitN2(scheme, '+');
      scheme == Etcd <==> |parts| == 1 && parts[0] == Etcd
    ensures IsFirstField(SplitN2(scheme, '+')[0], scheme)
  {
    var parts := SplitN2(scheme, '+');
    if |parts| == 2 {
      assert scheme[..|parts[0]|] == parts[0];
      assert scheme[|parts[0]|] == '+';
    }
  }

  /** Each error of `SetRemoteConfig` happens exactly under its own
      condition on the scheme and path, and an unsupported provider is
      reported as the scheme's text before its first `+`. */
  lemma SetRemoteConfigErrors(u: Url)
    ensures var r := SetRemoteConfig(u);
      r == Error(MissingExtension) <==> HasPrefix(u.scheme, EtcdPrefix) && '.' !in LastElement(u.path)
    ensures var r := SetRemoteConfig(u);
      r == Error(InvalidScheme(u.scheme)) <==> u.scheme == Etcd
    ensures var r := SetRemoteConfig(u);
      r.Error? && r.kind.UnsupportedProvider? <==> !HasPrefix(u.scheme, EtcdPrefix) && u.scheme != Etcd
    ensures var r := SetRemoteConfig(u);
      r.Error? && r.kind.UnsupportedProvider? ==> IsFirstField(r.kind.provider, u.scheme)
  {
    EtcdSchemeSplit(u.scheme);
    SchemeFirstField(u.scheme);
  }

  /** The `--config` branch of `ConfigInit`: an empty flag means the default
      search, a locator that does not parse is fatal, a locator with a scheme
      is remote and one without is a local file used exactly as written. */
  function ConfigSource(cfgName: string, loc: Locator): (r: Source)
    ensures r.Search? <==> loc.raw == ""
    ensures r.Search? ==> r.cfgName == cfgName
    ensures r == Error(InvalidLocator(loc.raw)) <==> loc.raw != "" && loc.parsed.ParseFailed?
    ensures r.Local? <==> loc.raw != "" && loc.parsed.Parsed? && loc.parsed.url.scheme == ""
    ensures r.Local? ==> r.file == loc.raw
    ensures loc.raw != "" && loc.parsed.Parsed? && loc.parsed.url.scheme != "" ==>
      IsRemoteOutcome(r) && r == SetRemoteConfig(loc.parsed.url)
  {
    if loc.raw == "" then Search(cfgName)
    else match loc.parsed
      case ParseFailed => Error(InvalidLocator(loc.raw))
      case Parsed(u) =>
        if u.scheme != "" then SetRemoteConfig(u) else Local(loc.raw)
  }

  /** Any provider but etcd is refused, with or without a protocol part and
      whatever the host and path. */
  lemma UnsupportedProviderRejected(u: Url, provider: string, protocol: string)
    requires '+' !in provider && provider != Etcd
    requires u.scheme == provider || u.scheme == provider + "+" + protocol
    ensures SetRemoteConfig(u) == Error(UnsupportedProvider(provider))
  {
    if u.scheme != provider {
      SplitN2AtFirst(u.scheme, '+', provider, protocol);
    }
  }

  /** Provider etcd without a `+protocol` is an invalid scheme: the
      invalid-scheme case of `SetRemoteConfigErrors`, for scheme `etcd`. */
  lemma EtcdWithoutProtocolRejected(u: Url)
    requires u.scheme == Etcd
    ensures SetRemoteConfig(u) == Error(InvalidScheme(Etcd))
  {
  }

  /** Everything after the first `+` is the protocol, later `+` included:
      it becomes the endpoint's scheme and the path passes through. */
  lemma EtcdEndpoint(u: Url, protocol: string)
    requires u.scheme == EtcdPrefix + protocol
    ensures var r := SetRemoteConfig(u);
      || (r.Remote? && r.provider == Etcd && r.endpoint == protocol + "://" + u.host && r.path == u.path)
      || r == Error(MissingExtension)
  {
    SplitN2AtFirst(u.scheme, '+', Etcd, protocol);
  }

  /** An etcd locator fails for want of an extension exactly when the final
      element of its path has no `.`: the missing-extension case of
      `SetRemoteConfigErrors`, stated for a scheme `etcd+protocol`. */
  lemma MissingExtensionIff(u: Url, protocol: string)
    requires u.scheme == EtcdPrefix + protocol
    ensures SetRemoteConfig(u) == Error(MissingExtension) <==> '.' !in LastElement(u.path)
  {
    SplitN2AtFirst(u.scheme, '+', Etcd, protocol);
  }

  /** The config type is the text after the path's last `.`, kept as it is
      (no case change): a path `stem.t` gives type `t`. */
  lemma ConfigTypeIsExtension(u: Url, protocol: string, stem: string, t: string)
    requires u.scheme == EtcdPrefix + protocol
    requires u.path == stem + "." + t
    requires '.' !in t && '/' !in t
    ensures SetRemoteConfig(u) == Remote(Etcd, protocol + "://" + u.host, u.path, t)
  {
    SplitN2AtFirst(u.scheme, '+', Etcd, protocol);
    ExtOfSuffix(stem, t);
  }

  /** A path ending in `.` is accepted with an empty config type. */
  lemma TrailingDotGivesEmptyType(u: Url, protocol: string, stem: string)
    requires u.scheme == EtcdPrefix + protocol
    requires u.path == stem + "."
    ensures SetRemoteConfig(u) == Remote(Etcd, protocol + "://" + u.host, u.path, "")
  {
    assert u.path == stem + "." + "";
    ConfigTypeIsExtension(u, protocol, stem, "");
  }

  /** The locator from the source's own comment,
      etcd+http://127.0.0.1:2380/path/to/key.yaml. */
  lemma ExampleEtcdHttp(loc: Locator)
    requires loc == Locator("etcd+http://127.0.0.1:2380/path/to/key.yaml",
                            Parsed(Url("etcd+http", "127.0.0.1:2380", "/path/to/key.yaml")))
    ensures ConfigSource("app", loc) == Remote("etcd", "http://127.0.0.1:2380", "/path/to/key.yaml", "yaml")
  {
    assert "http" + "://" + "127.0.0.1:2380" == "http://127.0.0.1:2380";
    var u := loc.parsed.url;
    assert u.scheme == EtcdPrefix + "http";
    assert u.path == "/path/to/key" + "." + "yaml";
    ConfigTypeIsExtension(u, "http", "/path/to/key", "yaml");
  }

  /** A scheme without `+` whose provider is not etcd: ftp://host/file.yaml. */
  lemma ExampleFtp(loc: Locator)
    requires loc == Locator("ftp://host/file.yaml", Parsed(Url("ftp", "host", "/file.yaml")))
    ensures ConfigSource("app", loc) == Error(UnsupportedProvider("ftp"))
  {
    UnsupportedProviderRejected(loc.parsed.url, "ftp", "");
  }

  /** An etcd locator whose path has no extension: etcd+http://host/file. */
  lemma ExampleNoExtension(loc: Locator)
    requires loc == Locator("etcd+http://host/file", Parsed(Url("etcd+http", "host", "/file")))
    ensures ConfigSource("app", loc) == Error(MissingExtension)
  {
    assert '.' !in "file" && '/' !in "file";
    assert LastElement("/") == [];
    var u := loc.parsed.url;
    assert u.scheme == EtcdPrefix + "http";
    assert u.path == "/" + "file";
    LastElementAppend("/", "file");
    assert LastElement(u.path) == "file";
    MissingExtensionIff(u, "http");
  }

  /** A plain path is handed to viper exactly as written. */
  lemma ExampleLocal(loc: Locator)
    requires loc == Locator("./config/app.yaml", Parsed(Url("", "", "./config/app.yaml")))
    ensures ConfigSource("app", loc) == Local("./config/app.yaml")
  {
  }
}
