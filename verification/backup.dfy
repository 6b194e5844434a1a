/** The script's top level (backup.rb:36-44, 62-63, 151-155): validate the
    options, fix the run's directory and stem from one clock reading, then
    dump, compress, and encrypt when a passphrase is given, each stage
    taking the name the previous one returned. */
module Backup {

  import opened Outcomes
  import opened Text
  import opened Config
  import opened Planner
  import opened Commands
  import opened Stages

  /** What one accepted run amounts to: the directory and stem it used, its
      stages in order, and the name of the file it leaves behind. */
  datatype Run = Run(context: RunContext, steps: seq<Step>, final: string)

  /** Every stage after the first consumes exactly what the one before it
      produced, and the first consumes nothing. */
  predicate Chained(steps: seq<Step>) {
    && |steps| > 0
    && steps[0].consumed == None
    && forall i :: 0 < i < |steps| ==> steps[i].consumed == Some(steps[i - 1].produced)
  }

  /** Whether the encryption stage runs. */
  predicate Encrypts(o: Options) {
    o.rsaPassword != ""
  }

  /** The suffix the stages after the dump add to its file name. */
  function StageSuffix(o: Options): string {
    if Encrypts(o) then ".lzma.enc" else ".lzma"
  }

  /** The directory and stem, both from the same clock reading. */
  function Context(o: Options, t: Timestamp): (ctx: RunContext)
    requires ValidTime(t)
    ensures ctx.dataDir == DataDir(o.destination, t)
    ensures ParseStem(ctx.stem) == Some(t)
  {
    ParseOfStem(t);
    RunContext(DataDir(o.destination, t), Stem(t))
  }

  /** Stages that each consume what the one before produced form a chain. */
  lemma ChainOfTwo(a: Step, b: Step)
    requires a.consumed == None && b.consumed == Some(a.produced)
    ensures Chained([a, b])
  {
  }

  lemma ChainOfThree(a: Step, b: Step, c: Step)
    requires a.consumed == None && b.consumed == Some(a.produced) && c.consumed == Some(b.produced)
    ensures Chained([a, b, c])
  {
  }

  /** The stages in the script's order: dump, compress the dump, and
      encrypt the compressed file only when a passphrase is set. The run
      is a chain of two or three stages whose last output is the result. */
  function Pipeline(o: Options, ctx: RunContext): (r: Run)
    ensures r.context == ctx
    ensures Chained(r.steps)
    ensures |r.steps| == (if Encrypts(o) then 3 else 2)
    ensures r.final == r.steps[if Encrypts(o) then 2 else 1].produced
  {
    var dump := Dump(o, ctx);
    var compressed := Compress(o, dump.produced);
    if !Encrypts(o) then
      ChainOfTwo(dump, compressed);
      Run(ctx, [dump, compressed], compressed.produced)
    else
      var encrypted := Encrypt(o, compressed.produced);
      ChainOfThree(dump, compressed, encrypted);
      Run(ctx, [dump, compressed, encrypted], encrypted.produced)
  }

  /** The whole script for options `o` at clock reading `t`: refused with
      the first failing check's error, or run on the same options. */
  function Backup(o: Options, t: Timestamp): (r: Result<Run, ConfigError>)
    requires ValidTime(t)
    ensures r.Err? <==> !Acceptable(o)
    ensures r.Err? ==> Validate(o) == Err(r.error)
    ensures r.Ok? ==> r.value == Pipeline(o, Context(o, t))
    ensures r.Ok? ==> r.value.context.dataDir == DataDir(o.destination, t)
    ensures r.Ok? ==> ParseStem(r.value.context.stem) == Some(t)
    ensures r.Ok? ==> Chained(r.value.steps)
    ensures r.Ok? ==> r.value.final == DumpName(o, r.value.context) + StageSuffix(o)
  {
    match Validate(o)
    case Err(e) => Err(e)
    case Ok(accepted) =>
      FinalName(accepted, Context(accepted, t));
      Ok(Pipeline(accepted, Context(accepted, t)))
  }

  /** Everything the stages do to the outside world, in order. */
  function Effects(steps: seq<Step>): seq<Effect>
    decreases |steps|
  {
    if |steps| == 0 then [] else steps[0].effects + Effects(steps[1..])
  }

  /** Running stages one after another performs their effects in the
      same order, with nothing added or dropped. */
  lemma {:induction false} EffectsAppend(a: seq<Step>, b: seq<Step>)
    ensures Effects(a + b) == Effects(a) + Effects(b)
    decreases |a|
  {
    if |a| == 0 {
      assert a + b == b;
    } else {
      assert (a + b)[0] == a[0];
      assert (a + b)[1..] == a[1..] + b;
      EffectsAppend(a[1..], b);
    }
  }

  /** A name ending in `_<stem>.sql` holds the stem at a fixed distance
      from its end, so what the stem reads as reads back from the name. */
  lemma StemBeforeSql(name: string, stem: string, t: Timestamp)
    requires ParseStem(stem) == Some(t) && IsSuffix("_" + stem + ".sql", name)
    ensures |name| >= 19 && ParseStem(name[|name| - 19..|name| - 4]) == Some(t)
  {
    var suf := "_" + stem + ".sql";
    assert name[|name| - 20..] == suf;
    assert suf[1..16] == stem;
    assert name[|name| - 19..|name| - 4] == suf[1..16];
  }

  /** The dump file name ends with the run's stem and `.sql`, so the clock
      reading of the run reads back from the name alone. */
  lemma DumpNameTimestamp(o: Options, t: Timestamp)
    requires ValidTime(t)
    ensures var name := DumpName(o, Context(o, t));
      |name| >= 19 && ParseStem(name[|name| - 19..|name| - 4]) == Some(t)
  {
    var ctx := Context(o, t);
    DumpNameEnds(o, ctx);
    StemBeforeSql(DumpName(o, ctx), ctx.stem, t);
  }

  /** The effects of a two- or three-stage run, stage by stage. */
  lemma EffectsOfRun(steps: seq<Step>)
    requires |steps| == 2 || |steps| == 3
    ensures |steps| == 2 ==> Effects(steps) == steps[0].effects + steps[1].effects
    ensures |steps| == 3 ==> Effects(steps) == steps[0].effects + steps[1].effects + steps[2].effects
  {
    assert steps[1..][1..] == steps[2..];
    assert Effects(steps[1..]) == steps[1].effects + Effects(steps[2..]);
    if |steps| == 3 {
      assert steps[2..][1..] == [];
      assert Effects(steps[2..]) == steps[2].effects;
    }
  }

  /** Dry run touches nothing: no command runs and no file is removed. */
  lemma DryRunQuiet(o: Options, ctx: RunContext)
    requires o.dryRun
    ensures Effects(Pipeline(o, ctx).steps) == []
  {
    EffectsOfRun(Pipeline(o, ctx).steps);
  }

  /** The effects of live stages that each run their command, the last
      also removing its input. */
  lemma LiveEffectsOf(a: Step, b: Step, c: Step, three: bool)
    requires a.effects == [Exec(CommandLine(a.args))] && b.effects == [Exec(CommandLine(b.args))]
    requires c.effects == [Exec(CommandLine(c.args)), Delete(b.produced)]
    ensures Effects([a, b] + (if three then [c] else []))
         == [Exec(CommandLine(a.args)), Exec(CommandLine(b.args))]
            + (if three then [Exec(CommandLine(c.args)), Delete(b.produced)] else [])
  {
    EffectsOfRun([a, b] + (if three then [c] else []));
  }

  /** A live run executes each stage's command once, in order, and removes
      exactly one file: the compressed dump, after encrypting it, and only
      when encrypting. */
  lemma LiveEffects(o: Options, ctx: RunContext)
    requires !o.dryRun
    ensures var r := Pipeline(o, ctx);
      Effects(r.steps)
        == [Exec(CommandLine(r.steps[0].args)), Exec(CommandLine(r.steps[1].args))]
           + (if Encrypts(o) then [Exec(CommandLine(r.steps[2].args)), Delete(r.steps[1].produced)] else [])
  {
    var name := DumpName(o, ctx);
    PipelineSteps(o, ctx);
    LiveEffectsOf(Dump(o, ctx), Compress(o, name), Encrypt(o, name + ".lzma"), Encrypts(o));
  }

  /** The paths the effects remove, in order. */
  function Removed(effects: seq<Effect>): seq<string>
    decreases |effects|
  {
    if |effects| == 0 then []
    else (if effects[0].Delete? then [effects[0].path] else []) + Removed(effects[1..])
  }

  /** Two commands, then optionally a command and a removal, remove at most
      that one path. */
  lemma RemovedOfLive(a: string, b: string, c: string, path: string, three: bool)
    ensures Removed([Exec(a), Exec(b)] + (if three then [Exec(c), Delete(path)] else []))
         == (if three then [path] else [])
  {
    var e := [Exec(a), Exec(b)] + (if three then [Exec(c), Delete(path)] else []);
    assert Removed(e) == Removed(e[1..]);
    assert e[1..][1..] == e[2..];
    assert Removed(e[1..]) == Removed(e[2..]);
    if three {
      assert e[2..] == [Exec(c), Delete(path)];
      assert e[2..][1..] == [Delete(path)];
      assert Removed(e[2..]) == Removed([Delete(path)]);
      assert [Delete(path)][1..] == [];
      assert Removed([Delete(path)]) == [path];
    } else {
      assert e[2..] == [];
    }
  }

  /** A run removes exactly one file, the compressed dump, when it is live
      and encrypts, and removes nothing otherwise. */
  lemma Removals(o: Options, ctx: RunContext)
    ensures Removed(Effects(Pipeline(o, ctx).steps))
         == (if !o.dryRun && Encrypts(o) then [DumpName(o, ctx) + ".lzma"] else [])
  {
    var r := Pipeline(o, ctx);
    if o.dryRun {
      DryRunQuiet(o, ctx);
    } else {
      LiveEffects(o, ctx);
      RemovedOfLive(CommandLine(r.steps[0].args), CommandLine(r.steps[1].args),
                    if Encrypts(o) then CommandLine(r.steps[2].args) else "",
                    r.steps[1].produced, Encrypts(o));
    }
  }

  /** The file a run leaves behind is never one it removes. */
  lemma FinalSurvives(o: Options, ctx: RunContext)
    ensures Pipeline(o, ctx).final !in Removed(Effects(Pipeline(o, ctx).steps))
  {
    Removals(o, ctx);
    FinalName(o, ctx);
  }

  /** The stages with their effects removed. */
  function Silenced(steps: seq<Step>): (r: seq<Step>)
    ensures |r| == |steps|
    ensures forall i :: 0 <= i < |steps| ==> r[i] == steps[i].(effects := [])
  {
    seq(|steps|, i requires 0 <= i < |steps| => steps[i].(effects := []))
  }

  /** The stages of a run, spelled out. */
  lemma PipelineSteps(o: Options, ctx: RunContext)
    ensures Pipeline(o, ctx).steps
         == [Dump(o, ctx), Compress(o, DumpName(o, ctx))]
            + (if Encrypts(o) then [Encrypt(o, DumpName(o, ctx) + ".lzma")] else [])
  {
  }

  /** Each stage under dry run is the live stage without its effects. */
  lemma StagesDry(o: Options, ctx: RunContext, input: string)
    ensures Dump(o.(dryRun := true), ctx) == Dump(o.(dryRun := false), ctx).(effects := [])
    ensures Compress(o.(dryRun := true), input) == Compress(o.(dryRun := false), input).(effects := [])
    ensures Encrypt(o.(dryRun := true), input) == Encrypt(o.(dryRun := false), input).(effects := [])
  {
    var live, dry := o.(dryRun := false), o.(dryRun := true);
    StagesIgnoreLogging(live, dry, ctx, input);
    StagesIgnoreLogging(live, dry, ctx, DumpName(live, ctx));
  }

  /** Silencing two or three stages silences each of them. */
  lemma SilencedSteps(a: Step, b: Step, c: Step, three: bool, a2: Step, b2: Step, c2: Step)
    requires a2 == a.(effects := []) && b2 == b.(effects := []) && c2 == c.(effects := [])
    ensures [a2, b2] + (if three then [c2] else []) == Silenced([a, b] + (if three then [c] else []))
  {
  }

  lemma DrySteps(o: Options, ctx: RunContext)
    ensures Pipeline(o.(dryRun := true), ctx).steps == Silenced(Pipeline(o.(dryRun := false), ctx).steps)
  {
    var live, dry := o.(dryRun := false), o.(dryRun := true);
    var name := DumpName(live, ctx);
    StagesIgnoreLogging(live, dry, ctx, name);
    StagesDry(o, ctx, name);
    StagesDry(o, ctx, name + ".lzma");
    PipelineSteps(live, ctx);
    PipelineSteps(dry, ctx);
    SilencedSteps(Dump(live, ctx), Compress(live, name), Encrypt(live, name + ".lzma"), Encrypts(o),
                  Dump(dry, ctx), Compress(dry, name), Encrypt(dry, name + ".lzma"));
  }

  /** Dry run changes only the effects: a dry run is the live run with every
      effect removed, so the commands, the names handed from stage to stage
      and the final name are the same either way. */
  lemma DryRunIsSilenced(o: Options, ctx: RunContext)
    ensures var live := Pipeline(o.(dryRun := false), ctx);
      Pipeline(o.(dryRun := true), ctx) == live.(steps := Silenced(live.steps))
  {
    DrySteps(o, ctx);
    StagesIgnoreLogging(o.(dryRun := false), o.(dryRun := true), ctx, "");
  }

  /** Stages given option sets that differ only in verbosity and the custom
      SQL text are identical. */
  lemma StagesAgree(o: Options, p: Options, ctx: RunContext, input: string)
    requires SameCommands(o, p) && o.dryRun == p.dryRun
    ensures Dump(o, ctx) == Dump(p, ctx)
    ensures Compress(o, input) == Compress(p, input)
    ensures Encrypt(o, input) == Encrypt(p, input)
  {
    StagesIgnoreLogging(o, p, ctx, input);
    StagesIgnoreLogging(o, p, ctx, DumpName(o, ctx));
  }

  lemma PipelineAgree(o: Options, p: Options, ctx: RunContext)
    requires SameCommands(o, p) && o.dryRun == p.dryRun
    ensures Pipeline(o, ctx) == Pipeline(p, ctx)
  {
    var name := DumpName(o, ctx);
    StagesIgnoreLogging(o, p, ctx, name);
    StagesAgree(o, p, ctx, name);
    StagesAgree(o, p, ctx, name + ".lzma");
    PipelineSteps(o, ctx);
    PipelineSteps(p, ctx);
  }

  /** Verbosity and the custom SQL option change nothing the script does
      beyond its logging. */
  lemma InertOptions(o: Options, t: Timestamp, verbose: bool, sql: string)
    requires ValidTime(t)
    ensures Backup(o.(verbose := verbose, sql := sql), t) == Backup(o, t)
  {
    var p := o.(verbose := verbose, sql := sql);
    if Acceptable(o) {
      assert Context(p, t) == Context(o, t);
      PipelineAgree(o, p, Context(o, t));
    }
  }

  /** The run's result is the dump's name with `.lzma` appended, and then
      `.enc` exactly when a passphrase is set. */
  lemma FinalName(o: Options, ctx: RunContext)
    ensures var r := Pipeline(o, ctx);
      && r.final == DumpName(o, ctx) + StageSuffix(o)
      && IsPrefix(DumpName(o, ctx) + ".lzma", r.final)
      && (r.final == DumpName(o, ctx) + ".lzma" <==> !Encrypts(o))
  {
    var r := Pipeline(o, ctx);
    var name := DumpName(o, ctx);
    PipelineSteps(o, ctx);
    if Encrypts(o) {
      Glue(name, ".lzma", ".enc", ".lzma.enc");
      assert |r.final| > |name + ".lzma"|;
      assert r.final == name + ".lzma" + ".enc";
    }
  }
}
