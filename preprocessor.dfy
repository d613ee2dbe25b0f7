/**
 * The `Bob` preprocessor's entry points: renderer applicability, the run
 * over a book, and the request handling that first compares the calling
 * mdbook version with the one the plugin was built against.
 */
module Preprocessor {
  import opened Wrappers
  import opened Semver
  import opened Collaborators
  import opened BookWalk

  /** The preprocessor's name, also the key of its configuration table. */
  const Name: string := "svgbob"

  /** The one renderer the preprocessor declines. */
  const UnsupportedRenderer: string := "not-supported"

  /** What the run needs from mdbook's `PreprocessorContext`: the calling
      mdbook version and the `[preprocessor.*]` configuration tables. */
  datatype Context = Context(mdbookVersion: string, preprocessors: map<string, Table>)

  /** Errors that abort a whole request. */
  datatype Error = VersionParseError(text: string)

  function SupportsRenderer(renderer: string): (r: bool)
    ensures !r <==> renderer == UnsupportedRenderer
  {
    renderer != UnsupportedRenderer
  }

  /** The settings every chapter is rendered with: the preprocessor's own
      configuration table when there is one, the renderer's defaults otherwise. */
  function SettingsFor(ctx: Context, lib: Libraries): Settings {
    if Name in ctx.preprocessors then lib.cfgToSettings(ctx.preprocessors[Name]) else lib.defaultSettings
  }

  /** `run`: always succeeds, with the walked book. */
  method Run(ctx: Context, book: Book, lib: Libraries) returns (r: Result<Book, Error>)
    ensures r == Ok(Book(Walked(book.sections, SettingsFor(ctx, lib), lib)))
    ensures Skeleton(r.value.sections) == Skeleton(book.sections)
    ensures Contents(r.value.sections) == CommitAll(Contents(book.sections), SettingsFor(ctx, lib), lib)
  {
    var settings := SettingsFor(ctx, lib);
    var sections := Walk(book.sections, settings, lib);
    WalkKeepsSkeleton(book.sections, settings, lib);
    WalkCommitsContents(book.sections, settings, lib);
    r := Ok(Book(sections));
  }

  /** The version comparison of `handle_preprocessing`: parses the caller's
      version and the built version, then answers whether to warn. */
  function CheckVersions(caller: string, built: string, lib: Libraries): (r: Result<bool, Error>)
    ensures lib.parseVersion(caller).None? ==> r == Err(VersionParseError(caller))
    ensures lib.parseVersion(caller).Some? && lib.parseVersion(built).None? ==> r == Err(VersionParseError(built))
    ensures r.Ok? ==> lib.parseVersion(caller).Some? && lib.parseVersion(built).Some?
    ensures r.Ok? ==>
      (r.value <==> caller != built && !TildeMatches(lib.parseVersion(built).value, lib.parseVersion(caller).value))
  {
    match lib.parseVersion(caller)
    case None => Err(VersionParseError(caller))
    case Some(current) =>
      match lib.parseVersion(built)
      case None => Err(VersionParseError(built))
      case Some(req) => Ok(caller != built && !TildeMatches(req, current))
  }

  /** The same version string never draws a warning. */
  lemma SameVersionNoWarning(version: string, lib: Libraries)
    requires lib.parseVersion(version).Some?
    ensures CheckVersions(version, version, lib) == Ok(false)
  {
  }

  /** A caller whose major or minor version differs from the built one is
      warned about, whatever the patch levels. */
  lemma MinorMismatchWarns(caller: string, built: string, lib: Libraries)
    requires lib.parseVersion(caller).Some? && lib.parseVersion(built).Some?
    requires lib.parseVersion(caller).value.major != lib.parseVersion(built).value.major
          || lib.parseVersion(caller).value.minor != lib.parseVersion(built).value.minor
    ensures CheckVersions(caller, built, lib) == Ok(true)
  {
    TildeNeedsSameMinor(lib.parseVersion(built).value, lib.parseVersion(caller).value);
  }

  /** A caller within `~built` (same major and minor, patch at least the
      built one) is never warned about. */
  lemma TildeCompatibleNoWarning(caller: string, built: string, lib: Libraries)
    requires lib.parseVersion(caller).Some? && lib.parseVersion(built).Some?
    requires lib.parseVersion(caller).value.major == lib.parseVersion(built).value.major
    requires lib.parseVersion(caller).value.minor == lib.parseVersion(built).value.minor
    requires lib.parseVersion(caller).value.patch >= lib.parseVersion(built).value.patch
    ensures CheckVersions(caller, built, lib) == Ok(false)
  {
  }

  /** `handle_preprocessing` after the request has been read: version check
      (a parse error aborts the request), optional warning, then the run.
      `builtVersion` is the mdbook version the plugin was built against. */
  method HandlePreprocessing(ctx: Context, book: Book, builtVersion: string, lib: Libraries)
    returns (r: Result<Book, Error>, warned: bool)
    ensures CheckVersions(ctx.mdbookVersion, builtVersion, lib).Err? ==>
      r == Err(CheckVersions(ctx.mdbookVersion, builtVersion, lib).error) && !warned
    ensures CheckVersions(ctx.mdbookVersion, builtVersion, lib).Ok? ==>
      r.Ok? && warned == CheckVersions(ctx.mdbookVersion, builtVersion, lib).value
    ensures r.Ok? ==>
      r.value == Book(Walked(book.sections, SettingsFor(ctx, lib), lib))
  {
    var current := lib.parseVersion(ctx.mdbookVersion);
    if current.None? {
      return Err(VersionParseError(ctx.mdbookVersion)), false;
    }
    var built := lib.parseVersion(builtVersion);
    if built.None? {
      return Err(VersionParseError(builtVersion)), false;
    }
    warned := ctx.mdbookVersion != builtVersion && !TildeMatches(built.value, current.value);
    r := Run(ctx, book, lib);
  }
}
