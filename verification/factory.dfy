/** The QuadView processor factory: reads the four keep flags from a
    settings map once, and hands them to every processor it creates. */
module Factory {
  import opened Quadrants

  /** The factory's four final flags. */
  datatype Flags = Flags(keepBlue: bool, keepGreen: bool, keepRed: bool, keepFarRed: bool)

  /** A boolean setting, or the default when the key is absent. */
  function GetBoolean(settings: map<string, bool>, key: string, default: bool): (b: bool)
    ensures key in settings ==> b == settings[key]
    ensures key !in settings ==> b == default
  {
    if key in settings then settings[key] else default
  }

  /** The factory built from a settings map: each flag is read from its
      own key and is true when that key is missing. */
  function FromSettings(settings: map<string, bool>): (f: Flags)
    ensures "keep_blue" in settings ==> f.keepBlue == settings["keep_blue"]
    ensures "keep_green" in settings ==> f.keepGreen == settings["keep_green"]
    ensures "keep_red" in settings ==> f.keepRed == settings["keep_red"]
    ensures "keep_farRed" in settings ==> f.keepFarRed == settings["keep_farRed"]
    ensures "keep_blue" !in settings ==> f.keepBlue
    ensures "keep_green" !in settings ==> f.keepGreen
    ensures "keep_red" !in settings ==> f.keepRed
    ensures "keep_farRed" !in settings ==> f.keepFarRed
  {
    Flags(GetBoolean(settings, "keep_blue", true),
          GetBoolean(settings, "keep_green", true),
          GetBoolean(settings, "keep_red", true),
          GetBoolean(settings, "keep_farRed", true))
  }

  /** Empty settings keep every quadrant. */
  lemma EmptySettingsKeepAll()
    ensures CreateProcessor(FromSettings(map[])) == Selection(true, true, true, true)
    ensures KeptCount(CreateProcessor(FromSettings(map[]))) == 4
  {
  }

  /** The processor's flags, passed positionally in the order Blue, Green,
      Red, FarRed. */
  function CreateProcessor(f: Flags): (p: Selection)
    ensures Keeps(p, Blue) == f.keepBlue && Keeps(p, Green) == f.keepGreen
    ensures Keeps(p, Red) == f.keepRed && Keeps(p, FarRed) == f.keepFarRed
  {
    Selection(f.keepBlue, f.keepGreen, f.keepRed, f.keepFarRed)
  }
}
