/** The three pipeline stages (backup.rb:99-149) and the skip-table clause
    the dump uses (backup.rb:52-60). Each stage returns its command words,
    the file name it hands on, and the effects it performs; under dry run
    the command is still built and the name still returned. */
module Stages {

  import opened Outcomes
  import opened Text
  import opened Config
  import opened Commands

  /** The values fixed once per run: the target directory and the
      timestamp stem shared by every file of the run. */
  datatype RunContext = RunContext(dataDir: string, stem: string)

  // ---------------------------------------------------------------------
  // Skip-table clause (backup.rb:52-60)

  function IgnoreFlag(database: string, table: string): string {
    "--ignore-table=" + database + "." + table
  }

  /** One `--ignore-table=<database>.<table>` flag per entry, in order. */
  function IgnoreFlags(database: string, tables: seq<string>): (r: seq<string>)
    ensures |r| == |tables|
    ensures forall i :: 0 <= i < |tables| ==> r[i] == IgnoreFlag(database, tables[i])
  {
    seq(|tables|, i requires 0 <= i < |tables| => IgnoreFlag(database, tables[i]))
  }

  /** `@skip_tables`: the flags joined by single spaces, empty exactly when
      there are no tables to skip. */
  function SkipClause(database: string, tables: seq<string>): (r: string)
    ensures r == "" <==> tables == []
  {
    var flags := IgnoreFlags(database, tables);
    JoinEmptyIff(flags, " ");
    assert tables != [] ==> |flags[0]| >= |"--ignore-table="|;
    Join(flags, " ")
  }

  /** The clause opens with the first table's flag and closes with the last
      one's. */
  lemma SkipClauseEnds(database: string, tables: seq<string>)
    requires tables != []
    ensures IsPrefix(IgnoreFlag(database, tables[0]), SkipClause(database, tables))
    ensures IsSuffix(IgnoreFlag(database, tables[|tables| - 1]), SkipClause(database, tables))
  {
    JoinEnds(IgnoreFlags(database, tables), " ");
  }

  /** Splitting the clause at spaces gives back one flag per table, in the
      tables' order, when no name contains a space. */
  lemma SkipClauseFlags(database: string, tables: seq<string>)
    requires tables != []
    requires ' ' !in database
    requires forall i :: 0 <= i < |tables| ==> ' ' !in tables[i]
    ensures Split(SkipClause(database, tables), ' ') == IgnoreFlags(database, tables)
  {
    var flags := IgnoreFlags(database, tables);
    forall i | 0 <= i < |flags| ensures ' ' !in flags[i] {
      assert flags[i] == "--ignore-table=" + database + "." + tables[i];
    }
    SplitJoin(flags, ' ');
  }

  // ---------------------------------------------------------------------
  // Dump stage (backup.rb:100-130)

  /** Elements in strictly increasing slot order, so each slot holds at
      most one element. */
  predicate Ordered<T>(xs: seq<T>, slot: T -> nat) {
    forall i, j :: 0 <= i < j < |xs| ==> slot(xs[i]) < slot(xs[j])
  }

  /** A one-element list when `present`, else empty: what the script's
      `list << x if present` adds. */
  function Opt<T>(present: bool, x: T): seq<T> {
    if present then [x] else []
  }

  /** Each element's slot is above its left neighbour's. */
  predicate Ascending<T>(xs: seq<T>, slot: T -> nat) {
    forall i :: 0 < i < |xs| ==> slot(xs[i - 1]) < slot(xs[i])
  }

  /** Slots that rise between neighbours rise across the whole list. */
  lemma {:induction false} AscendingOrdered<T>(xs: seq<T>, slot: T -> nat)
    requires Ascending(xs, slot)
    ensures Ordered(xs, slot)
    decreases |xs|
  {
    if |xs| > 1 {
      var init := xs[..|xs| - 1];
      assert Ascending(init, slot);
      AscendingOrdered(init, slot);
      forall i, j | 0 <= i < j < |xs| ensures slot(xs[i]) < slot(xs[j]) {
        if j < |xs| - 1 {
          assert xs[i] == init[i] && xs[j] == init[j];
        } else if i < j - 1 {
          assert xs[i] == init[i] && xs[j - 1] == init[j - 1];
        }
      }
    }
  }

  /** Pushing an element whose slot comes after the last element's keeps
      the slots rising, and the new last slot is at most the pushed one. */
  lemma AscendingPush<T>(xs: seq<T>, present: bool, x: T, slot: T -> nat)
    requires |xs| > 0 && Ascending(xs, slot) && slot(xs[|xs| - 1]) < slot(x)
    ensures var r := xs + Opt(present, x);
      |r| > 0 && Ascending(r, slot) && slot(r[|r| - 1]) <= slot(x)
  {
  }

  /** The slot a word takes in the dump command, in the order the script
      pushes them; words that never appear in it share the last slot. */
  function DumpSlot(a: Arg): nat {
    match a
    case Nice(_) => 0
    case Program(_) => 1
    case Username(_) => 2
    case Password(_) => 3
    case DumpOptions(_) => 4
    case IgnoreTables(_) => 5
    case AllDatabases => 6
    case Database(_) => 6
    case Redirect => 7
    case FilePath(_) => 8
    case _ => 9
  }

  /** The dump's scope word: every database, or the one named. */
  function Scope(o: Options): Arg {
    if o.all then AllDatabases else Database(o.database)
  }

  /** The credential words after `nice` and the tool, each only when set. */
  function DumpLogin(o: Options): seq<Arg> {
    [Nice(o.nice), Program("mysqldump")]
    + Opt(o.dbUsername != "", Username(o.dbUsername))
    + Opt(o.dbPassword != "", Password(o.dbPassword))
  }

  /** The login words followed by the extra options and the skip clause,
      each only when non-empty. */
  function DumpHead(o: Options): seq<Arg> {
    var clause := SkipClause(o.database, o.skipTables);
    DumpLogin(o)
    + Opt(o.dumpOptions != "", DumpOptions(o.dumpOptions))
    + Opt(clause != "", IgnoreTables(clause))
  }

  /** The words of the dump command writing to `name`. */
  function DumpArgs(o: Options, name: string): seq<Arg> {
    DumpHead(o) + [Scope(o), Redirect, FilePath(name)]
  }

  /** `nice` and the tool come first; the scope, the redirection and the
      file come last. */
  lemma DumpArgsEnds(o: Options, name: string)
    ensures var args := DumpArgs(o, name);
      && |args| >= 5
      && args[0] == Nice(o.nice) && args[1] == Program("mysqldump")
      && args[|args| - 3] == Scope(o)
      && args[|args| - 2] == Redirect && args[|args| - 1] == FilePath(name)
  {
  }

  lemma DumpLoginAscending(o: Options)
    ensures var a := DumpLogin(o);
      |a| > 0 && Ascending(a, DumpSlot) && DumpSlot(a[|a| - 1]) <= 3
  {
    var a0 := [Nice(o.nice), Program("mysqldump")];
    var a1 := a0 + Opt(o.dbUsername != "", Username(o.dbUsername));
    AscendingPush(a0, o.dbUsername != "", Username(o.dbUsername), DumpSlot);
    AscendingPush(a1, o.dbPassword != "", Password(o.dbPassword), DumpSlot);
  }

  lemma DumpHeadAscending(o: Options)
    ensures var a := DumpHead(o);
      |a| > 0 && Ascending(a, DumpSlot) && DumpSlot(a[|a| - 1]) <= 5
  {
    var clause := SkipClause(o.database, o.skipTables);
    var a2 := DumpLogin(o);
    var a3 := a2 + Opt(o.dumpOptions != "", DumpOptions(o.dumpOptions));
    DumpLoginAscending(o);
    AscendingPush(a2, o.dumpOptions != "", DumpOptions(o.dumpOptions), DumpSlot);
    AscendingPush(a3, clause != "", IgnoreTables(clause), DumpSlot);
  }

  /** The dump words come in the order the script pushes them, so no role
      occurs twice. */
  lemma DumpArgsOrdered(o: Options, name: string)
    ensures Ordered(DumpArgs(o, name), DumpSlot)
  {
    var a4 := DumpHead(o);
    var a5 := a4 + Opt(true, Scope(o));
    var a6 := a5 + Opt(true, Redirect);
    DumpHeadAscending(o);
    AscendingPush(a4, true, Scope(o), DumpSlot);
    AscendingPush(a5, true, Redirect, DumpSlot);
    AscendingPush(a6, true, FilePath(name), DumpSlot);
    assert DumpArgs(o, name) == a6 + Opt(true, FilePath(name));
    AscendingOrdered(DumpArgs(o, name), DumpSlot);
  }

  /** The `-u` word is present exactly when a username is set, and carries it. */
  lemma DumpUsernameWord(o: Options, name: string)
    ensures Username(o.dbUsername) in DumpArgs(o, name) <==> o.dbUsername != ""
    ensures forall a :: a in DumpArgs(o, name) && a.Username? ==> a.user == o.dbUsername
  {
  }

  /** The `-p` word is present exactly when a password is set, and carries it. */
  lemma DumpPasswordWord(o: Options, name: string)
    ensures Password(o.dbPassword) in DumpArgs(o, name) <==> o.dbPassword != ""
    ensures forall a :: a in DumpArgs(o, name) && a.Password? ==> a.password == o.dbPassword
  {
  }

  /** The extra options are passed exactly when set, verbatim. */
  lemma DumpOptionsWord(o: Options, name: string)
    ensures DumpOptions(o.dumpOptions) in DumpArgs(o, name) <==> o.dumpOptions != ""
    ensures forall a :: a in DumpArgs(o, name) && a.DumpOptions? ==> a.text == o.dumpOptions
  {
  }

  /** The skip clause is passed exactly when there are tables to skip, so
      with no tables no `--ignore-table` word appears at all. */
  lemma DumpIgnoreWord(o: Options, name: string)
    ensures IgnoreTables(SkipClause(o.database, o.skipTables)) in DumpArgs(o, name) <==> o.skipTables != []
    ensures forall a :: a in DumpArgs(o, name) && a.IgnoreTables? ==> a.clause == SkipClause(o.database, o.skipTables)
  {
  }

  /** The scope is decided by `all` alone: `--all-databases` when set, the
      database name otherwise, and no other scope word occurs. */
  lemma DumpScopeWord(o: Options, name: string)
    ensures AllDatabases in DumpArgs(o, name) <==> o.all
    ensures forall a :: a in DumpArgs(o, name) && (a.AllDatabases? || a.Database?) ==> a == Scope(o)
  {
  }

  /** The dump command line opens with `nice` and the tool and closes by
      redirecting into the file. */
  lemma DumpLine(o: Options, name: string)
    ensures IsPrefix("nice -n " + o.nice + " mysqldump ", CommandLine(DumpArgs(o, name)))
    ensures IsSuffix(" > " + name, CommandLine(DumpArgs(o, name)))
  {
    var args := DumpArgs(o, name);
    DumpArgsEnds(o, name);
    var w := Words(args);
    assert w[0] == Render(args[0]) && w[1] == Render(args[1]);
    assert w[|w| - 2] == Render(args[|args| - 2]) && w[|w| - 1] == Render(args[|args| - 1]);
    RedirectLine(w, o.nice, name);
  }

  /** Words that start with `nice` and the tool and end with `>` and a
      file join into a line with those ends. */
  lemma RedirectLine(w: seq<string>, nice: string, name: string)
    requires |w| >= 3
    requires w[0] == "nice -n " + nice && w[1] == "mysqldump"
    requires w[|w| - 2] == ">" && w[|w| - 1] == name
    ensures IsPrefix("nice -n " + nice + " mysqldump ", Join(w, " "))
    ensures IsSuffix(" > " + name, Join(w, " "))
  {
    JoinFront(w, " ");
    JoinBack(w, " ");
    var p := "nice -n " + nice;
    Glue(p, " ", "mysqldump", " mysqldump");
    Glue(p, " mysqldump", " ", " mysqldump ");
    Glue("", " ", ">", " >");
    Glue(" >", " ", name, " " + name);
  }

  /** What the dump file name is made of, in order; the script joins the
      segments' texts with underscores. */
  datatype Segment =
    | Head(dataDir: string, appendName: string)  // "<data_dir>/<append_name>", always present
    | AllMark                                    // "all"
    | DatabaseName(name: string)
    | OptionsMark(options: string)               // the dump options, dashes removed
    | Skipped(tables: seq<string>)               // "no_<t1>_<t2>..."
    | Stamp(stem: string)                        // "<stem>.sql", always last

  function SegmentText(s: Segment): (r: string)
    ensures s.OptionsMark? ==> '-' !in r
  {
    match s
    case Head(dir, append) => dir + "/" + append
    case AllMark => "all"
    case DatabaseName(name) => name
    case OptionsMark(options) => StripChar(options, '-')
    case Skipped(tables) => "no_" + Join(tables, "_")
    case Stamp(stem) => stem + ".sql"
  }

  /** A segment's text is empty only for an empty database name or for
      dump options made of dashes alone, which `gsub` wipes out; the head
      always keeps its slash and the stamp its `.sql`. */
  lemma SegmentTextEmpty(s: Segment)
    ensures SegmentText(s) == "" <==>
      (s.DatabaseName? && s.name == "")
      || (s.OptionsMark? && forall i :: 0 <= i < |s.options| ==> s.options[i] == '-')
  {
    if s.OptionsMark? {
      StripCharEmpty(s.options, '-');
    }
  }

  function SegmentTexts(segs: seq<Segment>): (r: seq<string>)
    ensures |r| == |segs|
    ensures forall i :: 0 <= i < |segs| ==> r[i] == SegmentText(segs[i])
  {
    seq(|segs|, i requires 0 <= i < |segs| => SegmentText(segs[i]))
  }

  function SegmentSlot(s: Segment): nat {
    match s
    case Head(_, _) => 0
    case AllMark => 1
    case DatabaseName(_) => 2
    case OptionsMark(_) => 3
    case Skipped(_) => 4
    case Stamp(_) => 5
  }

  /** The segments of the dump file name: the head first and the stamp
      last, an `all` mark exactly when dumping every database, the
      database name exactly when one is given (so both can appear), the
      options exactly when given, the skipped tables exactly when any. */
  function DumpSegments(o: Options, ctx: RunContext): (segs: seq<Segment>)
    ensures |segs| >= 2
    ensures segs[0] == Head(ctx.dataDir, o.appendName)
    ensures segs[|segs| - 1] == Stamp(ctx.stem)
  {
    NameScope(o, ctx)
    + Opt(o.dumpOptions != "", OptionsMark(o.dumpOptions))
    + Opt(o.skipTables != [], Skipped(o.skipTables))
    + [Stamp(ctx.stem)]
  }

  /** The head and the scope segments of the name. */
  function NameScope(o: Options, ctx: RunContext): seq<Segment> {
    [Head(ctx.dataDir, o.appendName)]
    + Opt(o.all, AllMark)
    + Opt(o.database != "", DatabaseName(o.database))
  }

  /** The name has an `all` segment exactly when dumping every database,
      whether or not a database is named too. */
  lemma AllSegment(o: Options, ctx: RunContext)
    ensures AllMark in DumpSegments(o, ctx) <==> o.all
  {
  }

  /** The database name is a segment exactly when one is given. */
  lemma DatabaseSegment(o: Options, ctx: RunContext)
    ensures DatabaseName(o.database) in DumpSegments(o, ctx) <==> o.database != ""
    ensures forall s :: s in DumpSegments(o, ctx) && s.DatabaseName? ==> s.name == o.database
  {
  }

  /** The dump options are a segment exactly when given, and their text has
      every dash removed. */
  lemma OptionsSegment(o: Options, ctx: RunContext)
    ensures OptionsMark(o.dumpOptions) in DumpSegments(o, ctx) <==> o.dumpOptions != ""
    ensures forall s :: s in DumpSegments(o, ctx) && s.OptionsMark? ==> s.options == o.dumpOptions && '-' !in SegmentText(s)
  {
  }

  /** The skipped tables are a segment exactly when there are any, reading
      `no_` and the tables joined with underscores. */
  lemma SkippedSegment(o: Options, ctx: RunContext)
    ensures Skipped(o.skipTables) in DumpSegments(o, ctx) <==> o.skipTables != []
    ensures forall s :: s in DumpSegments(o, ctx) && s.Skipped? ==> SegmentText(s) == "no_" + Join(o.skipTables, "_")
  {
  }

  lemma NameScopeAscending(o: Options, ctx: RunContext)
    ensures var s := NameScope(o, ctx);
      |s| > 0 && Ascending(s, SegmentSlot) && SegmentSlot(s[|s| - 1]) <= 2
  {
    var s0 := [Head(ctx.dataDir, o.appendName)];
    AscendingPush(s0, o.all, AllMark, SegmentSlot);
    AscendingPush(s0 + Opt(o.all, AllMark), o.database != "", DatabaseName(o.database), SegmentSlot);
  }

  /** The name segments come in the order the script pushes them. */
  lemma DumpSegmentsOrdered(o: Options, ctx: RunContext)
    ensures Ordered(DumpSegments(o, ctx), SegmentSlot)
  {
    var s2 := NameScope(o, ctx);
    var s3 := s2 + Opt(o.dumpOptions != "", OptionsMark(o.dumpOptions));
    var s4 := s3 + Opt(o.skipTables != [], Skipped(o.skipTables));
    NameScopeAscending(o, ctx);
    AscendingPush(s2, o.dumpOptions != "", OptionsMark(o.dumpOptions), SegmentSlot);
    AscendingPush(s3, o.skipTables != [], Skipped(o.skipTables), SegmentSlot);
    AscendingPush(s4, true, Stamp(ctx.stem), SegmentSlot);
    assert DumpSegments(o, ctx) == s4 + Opt(true, Stamp(ctx.stem));
    AscendingOrdered(DumpSegments(o, ctx), SegmentSlot);
  }

  /** `final_filename`: the segment texts joined with underscores. */
  function DumpName(o: Options, ctx: RunContext): string {
    Join(SegmentTexts(DumpSegments(o, ctx)), "_")
  }

  /** The dump file name starts with `<data_dir>/<append_name>` (even an
      empty append name) and ends with `_<stem>.sql`. */
  lemma DumpNameEnds(o: Options, ctx: RunContext)
    ensures IsPrefix(ctx.dataDir + "/" + o.appendName, DumpName(o, ctx))
    ensures IsSuffix("_" + ctx.stem + ".sql", DumpName(o, ctx))
  {
    var texts := SegmentTexts(DumpSegments(o, ctx));
    JoinEnds(texts, "_");
    assert "_" + texts[|texts| - 1] == "_" + ctx.stem + ".sql";
  }

  /** Four parts joined, spelled out. */
  lemma JoinFour(w: seq<string>, sep: string)
    requires |w| == 4
    ensures Join(w, sep) == w[0] + sep + w[1] + sep + w[2] + sep + w[3]
  {
    assert w[..1] == [w[0]];
    JoinSnoc(w[..1], w[1], sep);
    assert w[..2] == w[..1] + [w[1]];
    JoinSnoc(w[..2], w[2], sep);
    assert w[..3] == w[..2] + [w[2]];
    JoinSnoc(w[..3], w[3], sep);
    assert w == w[..3] + [w[3]];
  }

  /** Options for an example: database `shop`, append name
      `nightly`, table `orders` skipped, everything else at its default. */
  const ShopNightly: Options := Defaults.(database := "shop", appendName := "nightly", skipTables := ["orders"])

  lemma ShopNightlyTexts(dir: string, stem: string)
    ensures SegmentTexts(DumpSegments(ShopNightly, RunContext(dir, stem)))
         == [dir + "/nightly", "shop", "no_orders", stem + ".sql"]
  {
    var segs := DumpSegments(ShopNightly, RunContext(dir, stem));
    assert segs == [Head(dir, "nightly"), DatabaseName("shop"), Skipped(["orders"]), Stamp(stem)];
    assert Join(["orders"], "_") == "orders";
    Glue(dir, "/", "nightly", "/nightly");
    var texts := SegmentTexts(segs);
    assert texts[0] == dir + "/nightly";
    assert texts[1] == "shop";
    assert texts[2] == "no_orders";
    assert texts[3] == stem + ".sql";
  }

  /** An example: `<dir>/nightly_shop_no_orders_<stem>.sql`. */
  lemma ShopNightlyName(dir: string, stem: string)
    ensures DumpName(ShopNightly, RunContext(dir, stem)) == dir + "/nightly_shop_no_orders_" + stem + ".sql"
  {
    ShopNightlyTexts(dir, stem);
    JoinFour([dir + "/nightly", "shop", "no_orders", stem + ".sql"], "_");
    Glue(dir, "/nightly", "_", "/nightly_");
    Glue(dir, "/nightly_", "shop", "/nightly_shop");
    Glue(dir, "/nightly_shop", "_", "/nightly_shop_");
    Glue(dir, "/nightly_shop_", "no_orders", "/nightly_shop_no_orders");
    Glue(dir, "/nightly_shop_no_orders", "_", "/nightly_shop_no_orders_");
    var p := dir + "/nightly_shop_no_orders_";
    assert p + (stem + ".sql") == p + stem + ".sql";
  }

  /** The skip segment lists the skipped tables, recoverable by splitting
      at underscores when no table name contains one. */
  lemma SkippedSegmentTables(tables: seq<string>)
    requires tables != []
    requires forall i :: 0 <= i < |tables| ==> '_' !in tables[i]
    ensures IsPrefix("no_", SegmentText(Skipped(tables)))
    ensures Split(SegmentText(Skipped(tables))[3..], '_') == tables
  {
    var r := SegmentText(Skipped(tables));
    assert r[3..] == Join(tables, "_");
    SplitJoin(tables, '_');
  }

  /** `mysqldump`: builds the command and the file name; runs the command
      unless dry run. */
  function Dump(o: Options, ctx: RunContext): (s: Step)
    ensures s.consumed == None
    ensures s.produced == DumpName(o, ctx)
    ensures s.args == DumpArgs(o, s.produced)
    ensures o.dryRun ==> s.effects == []
    ensures !o.dryRun ==> s.effects == [Exec(CommandLine(s.args))]
  {
    var name := DumpName(o, ctx);
    var args := DumpArgs(o, name);
    Step(None, args, name, if o.dryRun then [] else [Exec(CommandLine(args))])
  }

  // ---------------------------------------------------------------------
  // Compress stage (backup.rb:133-139)

  function CompressArgs(o: Options, input: string): seq<Arg> {
    [Nice(o.nice), Program("lzma"), Level(o.lzmaCompression), Flag("-z"), FilePath(input)]
  }

  /** `compress_file`: compresses in place and returns the name the tool
      gives the result. */
  function Compress(o: Options, input: string): (s: Step)
    ensures s.consumed == Some(input)
    ensures s.produced == input + ".lzma"
    ensures s.args == CompressArgs(o, input)
    ensures o.dryRun ==> s.effects == []
    ensures !o.dryRun ==> s.effects == [Exec(CommandLine(s.args))]
  {
    var args := CompressArgs(o, input);
    Step(Some(input), args, input + ".lzma", if o.dryRun then [] else [Exec(CommandLine(args))])
  }

  /** The compress command is the script's interpolated string, and it
      ends with the input file name verbatim. */
  lemma CompressCommand(o: Options, input: string)
    ensures CommandLine(Compress(o, input).args) == "nice -n " + o.nice + " lzma -" + o.lzmaCompression + " -z " + input
    ensures IsSuffix(" " + input, CommandLine(Compress(o, input).args))
  {
    CompressLine(o, input);
  }

  /** The rendered compress words. */
  lemma CompressWords(o: Options, input: string)
    ensures Words(CompressArgs(o, input)) == ["nice -n " + o.nice, "lzma", "-" + o.lzmaCompression, "-z", input]
  {
  }

  /** Those words joined by spaces give the script's command string, which
      ends with a space and the file name. */
  lemma CompressJoin(nice: string, level: string, input: string)
    ensures Join(["nice -n " + nice, "lzma", "-" + level, "-z", input], " ")
         == "nice -n " + nice + " lzma -" + level + " -z " + input
    ensures IsSuffix(" " + input, Join(["nice -n " + nice, "lzma", "-" + level, "-z", input], " "))
  {
    var w := ["nice -n " + nice, "lzma", "-" + level, "-z", input];
    JoinFive(w);
    assert w[..5] == w;
    var p := "nice -n " + nice;
    Glue(p, " ", "lzma", " lzma");
    GluePrefixed(p + " lzma", "-", level);
    Glue(p, " lzma", " -", " lzma -");
    var q := p + " lzma -" + level;
    Glue(q, " ", "-z", " -z");
    Glue(q, " -z", " ", " -z ");
    assert q + " -z " + input == q + " -z" + (" " + input);
  }

  /** The compress words render to the script's command string. */
  lemma CompressLine(o: Options, input: string)
    ensures CommandLine(CompressArgs(o, input)) == "nice -n " + o.nice + " lzma -" + o.lzmaCompression + " -z " + input
    ensures IsSuffix(" " + input, CommandLine(CompressArgs(o, input)))
  {
    CompressWords(o, input);
    CompressJoin(o.nice, o.lzmaCompression, input);
  }

  // ---------------------------------------------------------------------
  // Encrypt stage (backup.rb:142-149)

  function EncryptArgs(o: Options, input: string): seq<Arg> {
    [Nice(o.nice), Program("openssl"), Flag("enc"), Flag("-bf-cbc"), Flag("-salt"),
     Flag("-in"), QuotedPath(input), Flag("-out"), QuotedPath(input + ".enc"),
     Flag("-pass"), Passphrase(o.rsaPassword)]
  }

  /** `encrypt_file`: Blowfish-CBC with salt via openssl, writing next to
      the input; the input is removed afterwards unless dry run. */
  function Encrypt(o: Options, input: string): (s: Step)
    ensures s.consumed == Some(input)
    ensures s.produced == input + ".enc"
    ensures s.args == EncryptArgs(o, input)
    ensures o.dryRun ==> s.effects == []
    ensures !o.dryRun ==> s.effects == [Exec(CommandLine(s.args)), Delete(input)]
  {
    var args := EncryptArgs(o, input);
    Step(Some(input), args, input + ".enc",
         if o.dryRun then [] else [Exec(CommandLine(args)), Delete(input)])
  }

  /** The encrypt command reads the quoted input, writes the quoted name
      the stage returns, and is the script's interpolated string. */
  lemma EncryptCommand(o: Options, input: string)
    ensures var s := Encrypt(o, input);
      exists i :: 0 <= i < |s.args| - 1 && s.args[i] == Flag("-in") && s.args[i + 1] == QuotedPath(input)
    ensures var s := Encrypt(o, input);
      exists i :: 0 <= i < |s.args| - 1 && s.args[i] == Flag("-out") && s.args[i + 1] == QuotedPath(s.produced)
    ensures CommandLine(Encrypt(o, input).args)
         == "nice -n " + o.nice + " openssl enc -bf-cbc -salt -in \"" + input
            + "\" -out \"" + input + ".enc\" -pass pass:" + o.rsaPassword
  {
    var args := EncryptArgs(o, input);
    assert args[5] == Flag("-in") && args[6] == QuotedPath(input);
    assert args[7] == Flag("-out") && args[8] == QuotedPath(input + ".enc");
    assert Encrypt(o, input).args == args && Encrypt(o, input).produced == input + ".enc";
    EncryptLine(o, input);
  }

  /** The fixed cipher selection after `nice`. */
  lemma EncryptCipherWords(p: string)
    ensures p + " " + "openssl" + " " + "enc" + " " + "-bf-cbc" + " " + "-salt"
         == p + " openssl enc -bf-cbc -salt"
  {
    Glue(p, " ", "openssl", " openssl");
    Glue(p, " openssl", " ", " openssl ");
    Glue(p, " openssl ", "enc", " openssl enc");
    Glue(p, " openssl enc", " ", " openssl enc ");
    Glue(p, " openssl enc ", "-bf-cbc", " openssl enc -bf-cbc");
    Glue(p, " openssl enc -bf-cbc", " ", " openssl enc -bf-cbc ");
    Glue(p, " openssl enc -bf-cbc ", "-salt", " openssl enc -bf-cbc -salt");
  }

  /** The input and output words, each path in double quotes. */
  lemma EncryptPathWords(p: string, input: string)
    ensures p + " " + "-in" + " " + ("\"" + input + "\"") + " " + "-out" + " " + ("\"" + (input + ".enc") + "\"")
         == p + " -in \"" + input + "\" -out \"" + input + ".enc\""
  {
    EncryptInWords(p, input);
    var q := p + " " + "-in" + " " + ("\"" + input + "\"");
    EncryptOutWords(q, input);
    Glue(p + " -in \"" + input, "\"", " -out \"", "\" -out \"");
  }

  lemma EncryptInWords(p: string, input: string)
    ensures p + " " + "-in" + " " + ("\"" + input + "\"") == p + " -in \"" + input + "\""
  {
    Glue(p, " ", "-in", " -in");
    GlueWrapped(p + " -in", "\"", input, "\"");
    Glue(p, " -in", " \"", " -in \"");
  }

  lemma EncryptOutWords(q: string, input: string)
    ensures q + " " + "-out" + " " + ("\"" + (input + ".enc") + "\"") == q + " -out \"" + input + ".enc\""
  {
    Glue(q, " ", "-out", " -out");
    GlueWrapped(q + " -out", "\"", input + ".enc", "\"");
    Glue(q, " -out", " \"", " -out \"");
    var s := q + " -out \"";
    assert s + (input + ".enc") == s + input + ".enc";
    Glue(s + input, ".enc", "\"", ".enc\"");
  }

  /** The passphrase words. */
  lemma EncryptPassWords(p: string, secret: string)
    ensures p + " " + "-pass" + " " + ("pass:" + secret) == p + " -pass pass:" + secret
  {
    Glue(p, " ", "-pass", " -pass");
    Glue(p, " -pass", " ", " -pass ");
    Glue(p, " -pass ", "pass:", " -pass pass:");
  }

  /** The rendered encrypt words. */
  lemma EncryptWords(o: Options, input: string)
    ensures Words(EncryptArgs(o, input))
         == ["nice -n " + o.nice, "openssl", "enc", "-bf-cbc", "-salt", "-in", "\"" + input + "\"",
             "-out", "\"" + (input + ".enc") + "\"", "-pass", "pass:" + o.rsaPassword]
  {
  }

  /** Those words joined by spaces give the script's command string. */
  lemma EncryptJoin(nice: string, input: string, secret: string)
    ensures Join(["nice -n " + nice, "openssl", "enc", "-bf-cbc", "-salt", "-in", "\"" + input + "\"",
                  "-out", "\"" + (input + ".enc") + "\"", "-pass", "pass:" + secret], " ")
         == "nice -n " + nice + " openssl enc -bf-cbc -salt -in \"" + input
            + "\" -out \"" + input + ".enc\" -pass pass:" + secret
  {
    var p := "nice -n " + nice;
    JoinEleven([p, "openssl", "enc", "-bf-cbc", "-salt", "-in", "\"" + input + "\"",
                "-out", "\"" + (input + ".enc") + "\"", "-pass", "pass:" + secret]);
    EncryptCipherWords(p);
    var h := p + " openssl enc -bf-cbc -salt";
    EncryptPathWords(h, input);
    var m := h + " -in \"" + input + "\" -out \"" + input + ".enc\"";
    EncryptPassWords(m, secret);
    Glue(p, " openssl enc -bf-cbc -salt", " -in \"", " openssl enc -bf-cbc -salt -in \"");
    Glue(h + " -in \"" + input + "\" -out \"" + input, ".enc\"", " -pass pass:", ".enc\" -pass pass:");
  }

  /** The eleven encrypt words render to the script's command string. */
  lemma EncryptLine(o: Options, input: string)
    ensures CommandLine(EncryptArgs(o, input))
         == "nice -n " + o.nice + " openssl enc -bf-cbc -salt -in \"" + input
            + "\" -out \"" + input + ".enc\" -pass pass:" + o.rsaPassword
  {
    EncryptWords(o, input);
    EncryptJoin(o.nice, input, o.rsaPassword);
  }

  // ---------------------------------------------------------------------
  // What the stages read

  /** Two option sets that agree on everything except verbosity, the
      custom SQL text and dry run. */
  predicate SameCommands(o: Options, p: Options) {
    o.(verbose := p.verbose, sql := p.sql, dryRun := p.dryRun) == p
  }

  /** Stages given such option sets build the same commands and the same
      names; verbosity and the custom SQL text are read by no stage. */
  lemma StagesIgnoreLogging(o: Options, p: Options, ctx: RunContext, input: string)
    requires SameCommands(o, p)
    ensures DumpName(o, ctx) == DumpName(p, ctx)
    ensures DumpArgs(o, input) == DumpArgs(p, input)
    ensures CompressArgs(o, input) == CompressArgs(p, input)
    ensures EncryptArgs(o, input) == EncryptArgs(p, input)
  {
    assert NameScope(o, ctx) == NameScope(p, ctx);
    assert DumpSegments(o, ctx) == DumpSegments(p, ctx);
    assert DumpHead(o) == DumpHead(p) by {
      assert DumpLogin(o) == DumpLogin(p);
    }
  }
}
