/** Command lines and their effects. Each stage builds its command as a
    list of words that the script joins with single spaces and hands to
    the shell; here every word carries the role it plays, and `Render`
    gives the exact text the script puts in that place. */
module Commands {

  import opened Outcomes
  import opened Text

  datatype Arg =
    | Nice(level: string)           // "nice -n <level>", one word in the script
    | Program(name: string)         // the tool run under nice
    | Username(user: string)        // "-u<user>"
    | Password(password: string)    // "-p<password>"
    | DumpOptions(text: string)     // extra dump arguments, verbatim
    | IgnoreTables(clause: string)  // the whole skip-table clause, one word in the script
    | AllDatabases                  // "--all-databases"
    | Database(name: string)        // the database name as the dump's scope
    | Redirect                      // ">"
    | Flag(text: string)            // a fixed flag of the tool
    | Level(level: string)          // "-<level>", the compression level
    | FilePath(path: string)        // a path, bare
    | QuotedPath(path: string)      // a path in double quotes
    | Passphrase(secret: string)    // "pass:<secret>"

  /** The text the script writes for a word. */
  function Render(a: Arg): string {
    match a
    case Nice(level) => "nice -n " + level
    case Program(name) => name
    case Username(user) => "-u" + user
    case Password(password) => "-p" + password
    case DumpOptions(text) => text
    case IgnoreTables(clause) => clause
    case AllDatabases => "--all-databases"
    case Database(name) => name
    case Redirect => ">"
    case Flag(text) => text
    case Level(level) => "-" + level
    case FilePath(path) => path
    case QuotedPath(path) => "\"" + path + "\""
    case Passphrase(secret) => "pass:" + secret
  }

  /** Every word carries its value verbatim after its fixed lead-in, so
      the value reads back from the rendered text. */
  lemma RenderReadsBack(a: Arg)
    ensures a.Nice? ==> IsPrefix("nice -n ", Render(a)) && Render(a)[8..] == a.level
    ensures a.Username? ==> IsPrefix("-u", Render(a)) && Render(a)[2..] == a.user
    ensures a.Password? ==> IsPrefix("-p", Render(a)) && Render(a)[2..] == a.password
    ensures a.Level? ==> IsPrefix("-", Render(a)) && Render(a)[1..] == a.level
    ensures a.Passphrase? ==> IsPrefix("pass:", Render(a)) && Render(a)[5..] == a.secret
    ensures a.QuotedPath? ==>
      var r := Render(a);
      |r| >= 2 && r[0] == '"' && r[|r| - 1] == '"' && r[1..|r| - 1] == a.path
  {
  }

  function Words(args: seq<Arg>): (r: seq<string>)
    ensures |r| == |args|
    ensures forall i :: 0 <= i < |args| ==> r[i] == Render(args[i])
  {
    seq(|args|, i requires 0 <= i < |args| => Render(args[i]))
  }

  /** The shell command line: the rendered words joined by single spaces. */
  function CommandLine(args: seq<Arg>): string {
    Join(Words(args), " ")
  }

  /** What running the script does to the outside world, in order. */
  datatype Effect =
    | Exec(command: string)  // `system(command)`
    | Delete(path: string)   // `FileUtils.rm_rf(path)`

  /** One stage of the pipeline: the file it consumed (none for the dump),
      its command, the file name it returns, and its effects. */
  datatype Step = Step(consumed: Option<string>, args: seq<Arg>, produced: string, effects: seq<Effect>)
}
