/**
 * The static tables of `rwr/constants.py` that the scraper rules consult:
 * game modes, game types, the players-list databases and the continents.
 * The tables loaded from JSON files (maps, ranks, items) are not constants
 * here: the members that use them take them as parameters.
 */
module RwrConstants {
  import opened Wrappers

  /** `SERVER_MODES`: the short and the long label of each game mode. */
  const ServerModes: map<string, (string, string)> := map[
    "COOP" := ("Coop.", "Cooperation"),
    "DOM" := ("Dom.", "Dominance"),
    "PvP" := ("PvP", "PvP"),
    "PvE" := ("PvE", "PvE"),
    "PvPvE" := ("PvPvE", "PvPvE")
  ]

  /** `SERVER_TYPES`: the display name of each game type. */
  const ServerTypes: map<string, string> := map[
    "vanilla" := "Vanilla",
    "vanilla.winter" := "Vanilla",
    "pvp" := "Vanilla",
    "pacific" := "RWR: PACIFIC",
    "man_vs_world_mp" := "Man vs World (MP)",
    "Running_with_the_Dead" := "Running with the Dead",
    "overlord_defense" := "Overlord Defense",
    "lab_defense" := "Lab Defense",
    "lab_def_koth" := "Lab Defense KOTH",
    "viper" := "Viper"
  ]

  /** The keys of `SERVER_TYPES`, in their declared order. */
  const ServerTypeKeys: seq<string> := [
    "vanilla", "vanilla.winter", "pvp", "pacific", "man_vs_world_mp",
    "Running_with_the_Dead", "overlord_defense", "lab_defense", "lab_def_koth", "viper"
  ]

  /** An entry of `PLAYERS_LIST_DATABASES`: its key, display name and server realm. */
  datatype Database = Database(key: string, name: string, realm: string)

  /** `PLAYERS_LIST_DATABASES`, in its declared order. */
  const PlayersListDatabases: seq<Database> := [
    Database("invasion", "Invasion", "official_invasion"),
    Database("pacific", "Pacific", "official_pacific")
  ]

  /**
   * The `ranks_country` of a database: fixed for `invasion`, taken from the
   * application configuration for `pacific`.
   */
  function RanksCountry(key: string, configuredPacificCountry: string): Option<string>
  {
    if key == "invasion" then Some("us")
    else if key == "pacific" then Some(configuredPacificCountry)
    else None
  }

  /** `VALID_DATABASES`. */
  const ValidDatabases: seq<string> := ["invasion", "pacific"]

  /** `VALID_CONTINENTS`: the continent codes of `CONTINENTS`. */
  const ValidContinents: set<string> := {"af", "na", "oc", "an", "as", "eu", "sa"}
}
