/**
 * The builder's configuration: the two JVM heap bounds read from
 * config/config.json, or a built-in default when that file is absent.
 */
module ServerConfig {
  import opened Wrappers

  /** `config["server"]["memory"]`: the two heap bounds, e.g. "1024M". */
  datatype Config = Config(memoryMin: string, memoryMax: string)

  const DefaultConfig := Config("1024M", "1024M")

  /**
   * `load_config`: the decoded configuration file when there is one,
   * otherwise the built-in default of 1024M for both bounds.
   */
  function LoadConfig(configFile: Option<Config>): (c: Config)
    ensures configFile.Some? ==> c == configFile.value
    ensures configFile.None? ==> c.memoryMin == "1024M" && c.memoryMax == "1024M"
  {
    match configFile
    case Some(decoded) => decoded
    case None => DefaultConfig
  }
}
