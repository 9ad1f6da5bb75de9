/**
 * The handler's configuration, as `app_factory` assembles it: built-in
 * defaults, overridden by the paste deploy global configuration, overridden
 * in turn by the application's local configuration.
 */
module Settings {

  /** The three options the handler reads. */
  datatype Options = Options(urlType: string, serviceType: string, swiftRole: string)

  const UrlTypeKey := "url_type"
  const ServiceTypeKey := "service_type"
  const SwiftRoleKey := "swift_role"

  /** The built-in configuration, before any override. */
  function Defaults(): (d: map<string, string>)
    ensures d.Keys == {UrlTypeKey, ServiceTypeKey, SwiftRoleKey}
  {
    map[UrlTypeKey := "publicURL", ServiceTypeKey := "object-store", SwiftRoleKey := "swiftoperator"]
  }

  /**
   * `conf.update(global_conf); conf.update(local_conf)` on the defaults:
   * every key of any of the three is present, and its value comes from the
   * local configuration if it has the key, else from the global one, else
   * from the defaults.
   */
  function AppFactory(globalConf: map<string, string>, localConf: map<string, string>): (conf: map<string, string>)
    ensures conf.Keys == Defaults().Keys + globalConf.Keys + localConf.Keys
    ensures forall k | k in conf ::
      conf[k] == if k in localConf then localConf[k]
                 else if k in globalConf then globalConf[k]
                 else Defaults()[k]
  {
    Defaults() + globalConf + localConf
  }

  /** The options the handler reads, taken from a configuration holding all three keys. */
  function OptionsOf(conf: map<string, string>): Options
    requires UrlTypeKey in conf && ServiceTypeKey in conf && SwiftRoleKey in conf
  {
    Options(conf[UrlTypeKey], conf[ServiceTypeKey], conf[SwiftRoleKey])
  }

  /**
   * What the factory hands the handler: each option is the local value if
   * given, else the global value if given, else the default ("publicURL",
   * "object-store", "swiftoperator"); the result is always defined.
   */
  lemma FactorySettings(globalConf: map<string, string>, localConf: map<string, string>)
    ensures var conf := AppFactory(globalConf, localConf);
      UrlTypeKey in conf && ServiceTypeKey in conf && SwiftRoleKey in conf &&
      OptionsOf(conf) == Options(
        Pick(UrlTypeKey, globalConf, localConf, "publicURL"),
        Pick(ServiceTypeKey, globalConf, localConf, "object-store"),
        Pick(SwiftRoleKey, globalConf, localConf, "swiftoperator"))
  {
    var conf := AppFactory(globalConf, localConf);
    assert UrlTypeKey in conf && ServiceTypeKey in conf && SwiftRoleKey in conf;
  }

  /** The override order for one key, with its default written out. */
  function Pick(key: string, globalConf: map<string, string>, localConf: map<string, string>, default: string): string
  {
    if key in localConf then localConf[key] else if key in globalConf then globalConf[key] else default
  }
}
