/** Where one run's artifacts go: the date-partitioned directory and the
    timestamp stem shared by every file of the run (backup.rb:62-63), and
    the directory fallback of `check_directories` (backup.rb:88-96). */
module Planner {

  import opened Outcomes
  import opened Decimal
  import opened Text

  /** The clock reading taken once at start-up, as broken-down local time. */
  datatype Timestamp = Timestamp(year: int, month: int, day: int, hour: int, minute: int, second: int)

  /** Ranges of a clock reading whose year `%Y` prints in four digits
      (zero-padded below 1000; second 60 is a leap second). */
  predicate ValidTime(t: Timestamp) {
    && 0 <= t.year <= 9999
    && 1 <= t.month <= 12
    && 1 <= t.day <= 31
    && 0 <= t.hour <= 23
    && 0 <= t.minute <= 59
    && 0 <= t.second <= 60
  }

  /** The root every run's directory hangs below, after the destination. */
  const MysqlRoot := "/backup/mysql/"

  /** `strftime("%Y%m%d_%H%M%S")`: fifteen characters, a digit everywhere
      but position 8, which holds the underscore. */
  function Stem(t: Timestamp): (r: string)
    requires ValidTime(t)
    ensures |r| == 15
    ensures r[8] == '_'
    ensures AllDigits(r[..8]) && AllDigits(r[9..])
  {
    var date := Pad4(t.year) + Pad2(t.month) + Pad2(t.day);
    var time := Pad2(t.hour) + Pad2(t.minute) + Pad2(t.second);
    DigitsConcat3(Pad4(t.year), Pad2(t.month), Pad2(t.day));
    DigitsConcat3(Pad2(t.hour), Pad2(t.minute), Pad2(t.second));
    SplitAtUnderscore(date, time);
    date + "_" + time
  }

  lemma DigitsConcat3(a: string, b: string, c: string)
    requires AllDigits(a) && AllDigits(b) && AllDigits(c)
    ensures AllDigits(a + b + c)
  {
  }

  lemma SplitAtUnderscore(date: string, time: string)
    requires |date| == 8
    ensures (date + "_" + time)[..8] == date
    ensures (date + "_" + time)[8] == '_'
    ensures (date + "_" + time)[9..] == time
  {
  }

  /** The three fields of a six-character digit group. */
  lemma Fields(a: string, b: string, c: string)
    requires |a| == |b| == |c| == 2
    ensures (a + b + c)[0..2] == a && (a + b + c)[2..4] == b && (a + b + c)[4..6] == c
  {
  }

  /** Reads a stem back into the timestamp it was rendered from, or nothing
      when the string does not have the stem's shape. The script has no
      such reader: this one exists to state that the stem loses nothing. */
  function ParseStem(s: string): (r: Option<Timestamp>)
    ensures r.Some? <==> |s| == 15 && s[8] == '_' && AllDigits(s[..8]) && AllDigits(s[9..])
  {
    if |s| == 15 && s[8] == '_' && AllDigits(s[..8]) && AllDigits(s[9..]) then
      assert AllDigits(s[0..4]) && AllDigits(s[4..6]) && AllDigits(s[6..8]);
      assert AllDigits(s[9..11]) && AllDigits(s[11..13]) && AllDigits(s[13..15]);
      Some(Timestamp(Value4(s[0..4]), Value2(s[4..6]), Value2(s[6..8]),
                     Value2(s[9..11]), Value2(s[11..13]), Value2(s[13..15])))
    else None
  }

  /** Each field of a stem is the zero-padded rendering of one component
      of the timestamp. */
  lemma StemFields(t: Timestamp)
    requires ValidTime(t)
    ensures Stem(t)[0..4] == Pad4(t.year)
    ensures Stem(t)[4..6] == Pad2(t.month)
    ensures Stem(t)[6..8] == Pad2(t.day)
    ensures Stem(t)[9..11] == Pad2(t.hour)
    ensures Stem(t)[11..13] == Pad2(t.minute)
    ensures Stem(t)[13..15] == Pad2(t.second)
  {
    var r := Stem(t);
    var date := Pad4(t.year) + Pad2(t.month) + Pad2(t.day);
    var time := Pad2(t.hour) + Pad2(t.minute) + Pad2(t.second);
    SplitAtUnderscore(date, time);
    assert r[0..4] == date[0..4];
    assert r[4..6] == date[4..6];
    assert r[6..8] == date[6..8];
    Fields(Pad2(t.hour), Pad2(t.minute), Pad2(t.second));
    assert r[9..11] == time[0..2];
    assert r[11..13] == time[2..4];
    assert r[13..15] == time[4..6];
  }

  /** Every stem reads back as the timestamp it was rendered from. */
  lemma ParseOfStem(t: Timestamp)
    requires ValidTime(t)
    ensures ParseStem(Stem(t)) == Some(t)
  {
    StemFields(t);
  }

  /** The other direction of the round trip: a string that parses to a
      valid timestamp is exactly the stem of that timestamp. */
  lemma StemOfParse(s: string, t: Timestamp)
    requires ParseStem(s) == Some(t)
    requires ValidTime(t)
    ensures Stem(t) == s
  {
    PaddedFieldsOfParse(s, t);
    Reassemble(s);
  }

  lemma PaddedFieldsOfParse(s: string, t: Timestamp)
    requires ParseStem(s) == Some(t)
    requires ValidTime(t)
    ensures Pad4(t.year) == s[0..4] && Pad2(t.month) == s[4..6] && Pad2(t.day) == s[6..8]
    ensures Pad2(t.hour) == s[9..11] && Pad2(t.minute) == s[11..13] && Pad2(t.second) == s[13..15]
  {
    assert AllDigits(s[0..4]) && AllDigits(s[4..6]) && AllDigits(s[6..8]);
    assert AllDigits(s[9..11]) && AllDigits(s[11..13]) && AllDigits(s[13..15]);
    Pad4Value(s[0..4]);
    Pad2Value(s[4..6]);
    Pad2Value(s[6..8]);
    Pad2Value(s[9..11]);
    Pad2Value(s[11..13]);
    Pad2Value(s[13..15]);
  }

  lemma Reassemble(s: string)
    requires |s| == 15 && s[8] == '_'
    ensures s == s[0..4] + s[4..6] + s[6..8] + "_" + s[9..11] + s[11..13] + s[13..15]
  {
    assert s == s[..8] + "_" + s[9..];
    assert s[..8] == s[0..4] + s[4..6] + s[6..8];
    assert s[9..] == s[9..11] + s[11..13] + s[13..15];
  }

  /** `<destination>/backup/mysql/%Y/%m/%d`: the year, month and day are
      the first eight characters of the same timestamp's stem, so a run's
      directory and file names always agree on the date. */
  function DataDir(destination: string, t: Timestamp): (r: string)
    requires ValidTime(t)
    ensures r == destination + MysqlRoot + Stem(t)[0..4] + "/" + Stem(t)[4..6] + "/" + Stem(t)[6..8]
    ensures |r| == |destination| + 24
  {
    StemFields(t);
    destination + MysqlRoot + Pad4(t.year) + "/" + Pad2(t.month) + "/" + Pad2(t.day)
  }

  /** `check_directories`: the planned directory when it could be created,
      otherwise the same path re-rooted under `/tmp/` (giving `/tmp//...`
      for an absolute path). The script defines this but never calls it. */
  function CheckDirectories(dataDir: string, created: bool): (r: string)
    ensures IsSuffix(dataDir, r)
    ensures r == dataDir <==> created
    ensures !created ==> IsPrefix("/tmp/", r)
    ensures |r| == |dataDir| + (if created then 0 else |"/tmp/"|)
  {
    if created then dataDir else "/tmp/" + dataDir
  }

  /** An example: 2024-03-07 10:15:30 under `/backup`. */
  lemma PlanExample()
    ensures DataDir("/backup", Timestamp(2024, 3, 7, 10, 15, 30)) == "/backup/backup/mysql/2024/03/07"
    ensures Stem(Timestamp(2024, 3, 7, 10, 15, 30)) == "20240307_101530"
  {
    DataDirExample();
    StemExample();
  }

  lemma DataDirExample()
    ensures DataDir("/backup", Timestamp(2024, 3, 7, 10, 15, 30)) == "/backup/backup/mysql/2024/03/07"
  {
    DatePadding();
  }

  lemma StemExample()
    ensures Stem(Timestamp(2024, 3, 7, 10, 15, 30)) == "20240307_101530"
  {
    DatePadding();
    TimePadding();
  }

  lemma DatePadding()
    ensures Pad4(2024) == "2024" && Pad2(3) == "03" && Pad2(7) == "07"
  {
  }

  lemma TimePadding()
    ensures Pad2(10) == "10" && Pad2(15) == "15" && Pad2(30) == "30"
  {
  }
}
