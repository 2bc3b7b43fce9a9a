/** The parsed configuration file: section name to (key to raw string value). */
module ConfigDict {
  import opened Wrappers

  type Config = map<string, map<string, string>>
  type Section = map<string, string>

  /** `config.get(name, {})`. */
  function GetSection(config: Config, name: string): (s: Section)
    ensures name in config ==> s == config[name]
    ensures name !in config ==> s == map[]
  {
    if name in config then config[name] else map[]
  }

  /** `section.get(key)`: `None` when the key is missing. */
  function Get(section: Section, key: string): (r: Option<string>)
    ensures r.Some? <==> key in section
    ensures r.Some? ==> r.value == section[key]
  {
    if key in section then Some(section[key]) else None
  }

  /** `section.get(key, default)`. */
  function GetOr(section: Section, key: string, default: string): (r: string)
    ensures key in section ==> r == section[key]
    ensures key !in section ==> r == default
  {
    Get(section, key).GetOr(default)
  }

  /** Python truthiness of an optional string: neither `None` nor "". */
  predicate Truthy(s: Option<string>) {
    s.Some? && s.value != ""
  }

  /** The words every boolean configuration value is compared against. */
  const TrueWords: set<string> := {"true", "yes", "1"}
}
