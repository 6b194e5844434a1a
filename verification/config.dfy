/** The script's options and the two checks it makes before doing
    anything (backup.rb:16-44). */
module Config {

  import opened Outcomes

  /** One field per command-line option, with the option parser's types. */
  datatype Options = Options(
    verbose: bool,
    database: string,
    appendName: string,
    dumpOptions: string,
    all: bool,
    skipTables: seq<string>,
    sql: string,            // accepted, read by no stage
    rsaPassword: string,    // empty means no encryption stage
    lzmaCompression: string,
    nice: string,
    destination: string,
    dbPassword: string,
    dbUsername: string,
    dryRun: bool
  )

  /** The defaults declared with each option. */
  const Defaults: Options := Options(
    verbose := false, database := "", appendName := "", dumpOptions := "",
    all := false, skipTables := [], sql := "", rsaPassword := "",
    lzmaCompression := "2", nice := "18", destination := "/backup",
    dbPassword := "", dbUsername := "", dryRun := false)

  /** The two refusals; the script prints a message and exits on either. */
  datatype ConfigError =
    | DatabaseOrAllRequired      // neither --database nor --all given
    | SkipTablesRequireDatabase  // --skip_tables without --database

  /** Options the script goes on to run with. */
  predicate Acceptable(o: Options) {
    && (o.database != "" || o.all)
    && !(o.skipTables != [] && o.database == "")
  }

  /** The checks in source order: the first one that fails decides the
      error, and options that pass are used unchanged. */
  function Validate(o: Options): (r: Result<Options, ConfigError>)
    ensures r.Ok? <==> Acceptable(o)
    ensures r.Ok? ==> r.value == o
    ensures r == Err(DatabaseOrAllRequired) <==> o.database == "" && !o.all
    ensures r == Err(SkipTablesRequireDatabase) <==> o.database == "" && o.all && o.skipTables != []
  {
    if !(o.database != "" || o.all) then Err(DatabaseOrAllRequired)
    else if o.skipTables != [] && o.database == "" then Err(SkipTablesRequireDatabase)
    else Ok(o)
  }

  /** The defaults alone are refused: a database or --all must be named.
      Naming both is accepted, and with both missing and tables to skip the
      first check's error is the one reported. */
  lemma ValidateExamples()
    ensures Validate(Defaults) == Err(DatabaseOrAllRequired)
    ensures Validate(Defaults.(all := true)).Ok?
    ensures Validate(Defaults.(database := "x", skipTables := ["t"])).Ok?
    ensures Validate(Defaults.(skipTables := ["t"])) == Err(DatabaseOrAllRequired)
    ensures Validate(Defaults.(all := true, skipTables := ["t"])) == Err(SkipTablesRequireDatabase)
    ensures Validate(Defaults.(database := "x", all := true)).Ok?
  {
  }

  /** Accepted options that skip tables always name a database, so every
      `--ignore-table=<database>.<table>` flag has a real database in it. */
  lemma AcceptedSkipHasDatabase(o: Options)
    requires Validate(o).Ok?
    ensures o.skipTables != [] ==> o.database != ""
    ensures o.database == "" ==> o.all && o.skipTables == []
  {
  }
}
