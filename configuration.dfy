/** The plugin settings the handler reads. */
module Config {

  /** Which figure the name label shows. */
  datatype LevelDisplayMode = TotalLevel | CombatLevel | CraftingLevel

  class Configuration {
    var MasterEnable: bool
    var DisplayMode: LevelDisplayMode

    /** A fresh configuration: enabled, showing the total level. */
    constructor ()
      ensures MasterEnable && DisplayMode == TotalLevel
    {
      MasterEnable := true;
      DisplayMode := TotalLevel;
    }
  }
}
