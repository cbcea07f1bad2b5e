/** The configuration values the core reads, with the defaults ConfigManager falls back to. */
module Settings {
  import opened JavaInt

  /** The search box, relative to the world's spawn column. */
  datatype Region = Region(minX: int32, maxX: int32, minZ: int32, maxZ: int32)

  datatype Config = Config(
    targetWorld: string,
    minX: int32,
    maxX: int32,
    minZ: int32,
    maxZ: int32,
    countdownSeconds: int32,
    messages: map<string, string>)
  {
    function SearchRegion(): Region {
      Region(minX, maxX, minZ, maxZ)
    }

    /** `getMessage(key)`: the configured template, or the empty string when absent. */
    function Message(key: string): string {
      if key in messages then messages[key] else ""
    }
  }

  const Defaults: Config := Config("world", -1000, 1000, -1000, 1000, 3, map[])
}
