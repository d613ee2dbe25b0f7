/**
 * The code that `src/preprocessor.rs` calls but does not define: the
 * pulldown_cmark tokenizer, the pulldown_cmark_to_cmark serializer, the
 * svgbob renderer and its configuration conversion, and semver parsing.
 * The model takes them as a bundle of total functions, so every property
 * proved here holds whatever those libraries do.
 */
module Collaborators {
  import opened Wrappers
  import opened Events
  import opened Semver

  /** Rendering options of the svgbob renderer; their meaning is the renderer's. */
  datatype Settings = Settings(options: map<string, string>)

  /** A `[preprocessor.<name>]` table of the book configuration. */
  type Table = map<string, string>

  /** The serializer's only error, `std::fmt::Error`. */
  datatype FmtError = FmtError

  datatype Libraries = Libraries(
    /** Tokenizes Markdown into events (`Parser::new`). */
    parse: string -> seq<Event>,
    /** Serializes events back to Markdown (`cmark`); it may fail. */
    cmark: seq<Event> -> Result<string, FmtError>,
    /** Renders diagram text to SVG markup (`bob_handler`); total. */
    bobHandler: (string, Settings) -> string,
    /** Converts a configuration table to settings (`cfg_to_settings`). */
    cfgToSettings: Table -> Settings,
    /** `Settings::default()`. */
    defaultSettings: Settings,
    /** `Version::parse`; `None` is a parse error. */
    parseVersion: string -> Option<Version>
  )
}
