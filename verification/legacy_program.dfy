/**
 The original single-file program: four commands declared inline, with
 handlers that print directly. The model keeps what they compute, with the
 markup colours and table/panel/rule drawing stripped: the option defaults,
 the greeting lines, the list items and bullets, the progress schedule and
 the order in which the commands are registered.
 */
module LegacyProgram {
  import opened Exceptions
  import opened Int32
  import opened CommandLine
  import opened ProgressSchedule
  import ProgressCommandHandler

  // ---- greet ----------------------------------------------------------

  const DefaultName: string := "World"
  const DefaultCount: Int32 := 1

  /** The parsed `--name` and `--count`, with their defaults. */
  datatype GreetArgs = GreetArgs(name: string, count: Int32)

  function ResolveGreet(name: Option<string>, count: Option<Int32>): (a: GreetArgs)
    ensures name.Some? ==> a.name == name.value
    ensures name.None? ==> a.name == "World"
    ensures count.Some? ==> a.count == count.value
    ensures count.None? ==> a.count == 1
  {
    GreetArgs(name.GetOr(DefaultName), count.GetOr(DefaultCount))
  }

  /** The Property/Value rows of the greeting table; the timestamp comes
      from the clock and is a parameter. */
  function GreetTable(a: GreetArgs, timestamp: string): (rows: seq<(string, string)>)
    ensures |rows| == 3
    ensures rows[0] == ("Name", a.name)
    ensures rows[1].0 == "Count" && IsIntText(rows[1].1) && ParseInt(rows[1].1) == a.count
    ensures rows[2] == ("Timestamp", timestamp)
  {
    IntToStringRoundTrip(a.count);
    [("Name", a.name), ("Count", IntToString(a.count)), ("Timestamp", timestamp)]
  }

  const GreetPrefix: string := "Hello, "
  const GreetMiddle: string := "! (#"
  const GreetSuffix: string := ")"

  /** The `n`-th greeting line, `Hello, <name>! (#<n>)`. */
  function GreetLine(name: string, n: nat): (line: string)
    ensures |GreetPrefix| + |name| + |GreetMiddle| < |line|
    ensures line[..|GreetPrefix|] == GreetPrefix
    ensures line[|GreetPrefix|..|GreetPrefix| + |name|] == name
    ensures line[|line| - 1] == ')'
  {
    GreetPrefix + name + GreetMiddle + NatToString(n) + GreetSuffix
  }

  predicate AllDigits(s: string) {
    forall i :: 0 <= i < |s| ==> IsDigit(s[i])
  }

  /** Reads the number back from a greeting line for `name`, if the line has
      the greeting's shape. */
  function GreetNumber(line: string, name: string): Option<nat> {
    var head := GreetPrefix + name + GreetMiddle;
    if |line| > |head| + 1 && line[..|head|] == head && line[|line| - 1] == ')'
       && AllDigits(line[|head|..|line| - 1])
    then Some(ParseNat(line[|head|..|line| - 1]))
    else None
  }

  /** Every greeting line shows the name right after the prefix, and its
      number can be read back. */
  lemma GreetLineRoundTrip(name: string, n: nat)
    ensures GreetNumber(GreetLine(name, n), name) == Some(n)
    ensures |GreetPrefix| + |name| <= |GreetLine(name, n)|
    ensures GreetLine(name, n)[|GreetPrefix|..|GreetPrefix| + |name|] == name
  {
    var head := GreetPrefix + name + GreetMiddle;
    var line := GreetLine(name, n);
    var digits := NatToString(n);
    assert line == head + digits + GreetSuffix;
    assert line[..|head|] == head;
    assert line[|head|..|line| - 1] == digits;
    NatToStringRoundTrip(n);
  }

  /** `for (int i = 0; i < count; i++)`: the greeting lines in order. */
  method GreetLines(a: GreetArgs) returns (lines: seq<string>)
    ensures |lines| == if a.count > 0 then a.count as int else 0
    ensures forall i :: 0 <= i < |lines| ==> lines[i] == GreetLine(a.name, i + 1)
    ensures forall i :: 0 <= i < |lines| ==> GreetNumber(lines[i], a.name) == Some(i + 1)
    ensures forall i :: 0 <= i < |lines| ==>
              |GreetPrefix| + |a.name| <= |lines[i]| &&
              lines[i][|GreetPrefix|..|GreetPrefix| + |a.name|] == a.name
  {
    lines := [];
    var i := 0;
    while i < a.count
      invariant 0 <= i <= (if a.count > 0 then a.count as int else 0)
      invariant |lines| == i
      invariant forall k :: 0 <= k < i ==> lines[k] == GreetLine(a.name, k + 1)
      decreases a.count - i
    {
      lines := lines + [GreetLine(a.name, i + 1)];
      i := i + 1;
    }
    forall k | 0 <= k < |lines|
      ensures GreetNumber(lines[k], a.name) == Some(k + 1)
      ensures |GreetPrefix| + |a.name| <= |lines[k]|
      ensures lines[k][|GreetPrefix|..|GreetPrefix| + |a.name|] == a.name
    {
      GreetLineRoundTrip(a.name, k + 1);
    }
  }

  // ---- list -----------------------------------------------------------

  const FallbackItems: seq<string> := ["Apple", "Banana", "Cherry", "Date", "Elderberry"]

  /** A missing or empty `--items` falls back to the five fruit names. */
  function ListItems(items: Option<seq<string>>): (r: seq<string>)
    ensures items.None? || items.value == [] ==> r == FallbackItems
    ensures items.Some? && items.value != [] ==> r == items.value
    ensures |r| > 0
  {
    if items.None? || items.value == [] then FallbackItems else items.value
  }

  const BulletPrefix: string := "• "

  /** A list line: the bullet, a space, then the item unchanged. */
  function Bullet(item: string): (line: string)
    ensures |line| == |BulletPrefix| + |item|
    ensures line[..|BulletPrefix|] == BulletPrefix
    ensures line[|BulletPrefix|..] == item
  {
    BulletPrefix + item
  }

  /** Takes the bullet off a bulleted line. */
  function Unbullet(line: string): string {
    if |line| >= |BulletPrefix| && line[..|BulletPrefix|] == BulletPrefix then line[|BulletPrefix|..] else line
  }

  lemma UnbulletBullet(item: string)
    ensures Unbullet(Bullet(item)) == item
  {
    assert Bullet(item)[..|BulletPrefix|] == BulletPrefix;
  }

  /** `foreach (var item in items)`: one bullet per item, in input order. */
  method ListLines(items: Option<seq<string>>) returns (lines: seq<string>)
    ensures var shown := ListItems(items);
            |lines| == |shown| && forall i :: 0 <= i < |lines| ==> Unbullet(lines[i]) == shown[i]
    ensures forall i :: 0 <= i < |lines| ==>
              |BulletPrefix| <= |lines[i]| && lines[i][..|BulletPrefix|] == BulletPrefix
  {
    var shown := ListItems(items);
    lines := [];
    var i := 0;
    while i < |shown|
      invariant 0 <= i <= |shown|
      invariant |lines| == i
      invariant forall k :: 0 <= k < i ==> lines[k] == Bullet(shown[k])
    {
      lines := lines + [Bullet(shown[i])];
      i := i + 1;
    }
    forall k | 0 <= k < |lines|
      ensures Unbullet(lines[k]) == shown[k]
    {
      UnbulletBullet(shown[k]);
    }
  }

  // ---- progress -------------------------------------------------------

  /** The inline progress handler: duration defaults to 3 and is not
      validated; the loop is the same schedule as the handler class's. */
  function LegacyProgress(duration: Option<Int32>): (b: Bumps)
    ensures var d := duration.GetOr(3);
            b == ProgressCommandHandler.ExecuteAsync(ProgressCommandHandler.ProgressHandlerState(d), Done).bumps.value
    ensures duration.None? ==> b == Bumps(30, 19, 14)
    ensures var d := duration.GetOr(3);
            0 < d <= MaxValue / 10 ==> b.task1 == d * 10 && b.task3 <= b.task2 < b.task1
  {
    ScheduleBumps(StepCount(duration.GetOr(3)))
  }

  /** Without validation, a non-positive duration runs no steps and still
      completes (down to the point where `d * 10` wraps); the default runs 30
      steps. */
  lemma LegacyProgressDurations(d: Int32)
    requires -(MaxValue / 10) <= d <= 0
    ensures LegacyProgress(Some(d)) == Bumps(0, 0, 0)
    ensures LegacyProgress(None) == Bumps(30, 19, 14)
  {
  }

  // ---- root command -----------------------------------------------------

  /** The commands in registration order, with their options. */
  function RootCommands(): (cs: seq<CommandSpec>)
    ensures |cs| == 4
    ensures |cs[0].options| == 2 && |cs[1].options| == 0 && |cs[2].options| == 1 && |cs[3].options| == 1
    ensures cs[0].name == "greet" && cs[1].name == "info" && cs[2].name == "list" && cs[3].name == "progress"
    ensures cs[0].options[0].defaultValue == Some(StringDefault(DefaultName))
    ensures cs[0].options[1].defaultValue == Some(IntDefault(DefaultCount as int))
    ensures cs[2].options[0].defaultValue.None?
    ensures cs[3].options[0].defaultValue == Some(IntDefault(3))
  {
    [ CommandSpec("greet", "Greet someone with a fancy table",
        [ OptionSpec("--name", "The name to greet", Some(StringDefault(DefaultName))),
          OptionSpec("--count", "Number of times to greet", Some(IntDefault(DefaultCount as int))) ]),
      CommandSpec("info", "Display system information", []),
      CommandSpec("list", "Display a list of items",
        [ OptionSpec("--items", "Items to display (comma-separated)", None) ]),
      CommandSpec("progress", "Show a progress bar demo",
        [ OptionSpec("--duration", "Duration in seconds", Some(IntDefault(3))) ]) ]
  }
}
