/**
  The cron field expander of `cmd/parse.go`: `rangeToString`,
  `stepRangeToString`, `expandField` and the tokenising part of `parseCron`.

  Each Go function that runs a loop is a method with the same loop, proved
  equal to a specification function (`RangeInts`, `StepInts`, `FieldText`);
  the lemmas below state what those functions mean.
 */
module CronParse {
  import opened Strings
  import opened Decimal

  // ---------------------------------------------------------------------
  // Values and their rendering
  // ---------------------------------------------------------------------

  /** `start, start+1, ..., end` ascending; empty when `start > end`
      (see `RangeIntsShape`). */
  function RangeInts(start: int, end: int): seq<int>
    decreases end - start
  {
    if start > end then [] else [start] + RangeInts(start + 1, end)
  }

  /** The value of the loop counter `i` after `n` rounds of `i += step`. */
  function CounterAfter(start: int, step: int, n: nat): int {
    start + n * step
  }

  lemma CounterAfterNext(start: int, step: int, n: nat)
    ensures CounterAfter(start, step, n + 1) == CounterAfter(start, step, n) + step
  {
    calc {
      CounterAfter(start, step, n + 1);
      start + (n + 1) * step;
      { assert (n + 1) * step == n * step + step; }
      start + n * step + step;
    }
  }

  /** `start, start+step, start+2*step, ...` while the value is `<= end`
      (see `StepIntsShape`). Defined only where the counting loop stops:
      a positive step, or a loop that never starts. */
  function StepInts(start: int, end: int, step: int): seq<int>
    requires step > 0 || start > end
    decreases end - start + step
  {
    if start > end then [] else [start] + StepInts(start + step, end, step)
  }

  /** Each value rendered with `fmt.Sprintf("%d", _)`. */
  function Decimals(xs: seq<int>): (r: seq<string>)
    ensures |r| == |xs|
  {
    if xs == [] then [] else [Itoa(xs[0])] + Decimals(xs[1..])
  }

  lemma DecimalsCons(x: int, xs: seq<int>)
    ensures Decimals([x] + xs) == [Itoa(x)] + Decimals(xs)
  {
    assert ([x] + xs)[1..] == xs;
  }

  lemma {:induction false} DecimalsAt(xs: seq<int>, k: int)
    requires 0 <= k < |xs|
    ensures Decimals(xs)[k] == Itoa(xs[k])
  {
    if k > 0 {
      DecimalsAt(xs[1..], k - 1);
    }
  }

  /** What both counting loops return: the renderings joined by single spaces. */
  function SpaceJoined(xs: seq<int>): string {
    Join(Decimals(xs), " ")
  }

  // ---------------------------------------------------------------------
  // The three kinds of field token
  // ---------------------------------------------------------------------

  // How `expandField` reads a token, tried in this order: exactly `*`,
  // then any token containing `*/`, then a comma-separated list.
  datatype Form = Every | Step(step: int) | List(parts: seq<string>)

  function Classify(field: string): Form {
    if field == "*" then Every
    else if Contains(field, "*/") then Step(Atoi(TrimPrefix(field, "*/")))
    else List(Split(field, ','))
  }

  /** The expansion of `field` finishes: it is not a step form whose step is
      non-positive over a non-empty bound. */
  predicate StepTerminates(field: string, min: int, max: int) {
    match Classify(field)
    case Step(n) => n > 0 || min > max
    case _ => true
  }

  /** One comma part of a list: a part containing `-` is the range between
      the texts before the first `-` and between the first and second `-`
      (each read by `Atoi`); any other part is kept as it is. */
  function PartText(part: string): string {
    if Contains(part, "-") then
      ContainsChar(part, '-');
      SplitShape(part, '-');
      var bounds := Split(part, '-');
      SpaceJoined(RangeInts(Atoi(bounds[0]), Atoi(bounds[1])))
    else part
  }

  /** The expansion of each part, in the parts' order. */
  function PartTexts(parts: seq<string>): seq<string> {
    seq(|parts|, k requires 0 <= k < |parts| => PartText(parts[k]))
  }

  /** The text `expandField(field, min, max)` returns. */
  function FieldText(field: string, min: int, max: int): string
    requires StepTerminates(field, min, max)
  {
    match Classify(field)
    case Every => SpaceJoined(RangeInts(min, max))
    case Step(n) => SpaceJoined(StepInts(min, max, n))
    case List(parts) => Join(PartTexts(parts), " ")
  }

  // ---------------------------------------------------------------------
  // The Go functions
  // ---------------------------------------------------------------------

  /** `rangeToString`: counts from `start` up to `end`. */
  method RangeToString(start: int, end: int) returns (r: string)
    ensures r == SpaceJoined(RangeInts(start, end))
  {
    var values: seq<string> := [];
    var i := start;
    while i <= end
      invariant values + Decimals(RangeInts(i, end)) == Decimals(RangeInts(start, end))
      decreases end - i
    {
      RangeLoopStep(values, i, start, end);
      values := values + [Itoa(i)];
      i := i + 1;
    }
    RangeLoopDone(values, i, start, end);
    r := Join(values, " ");
  }

  /** `stepRangeToString`: counts from `start` by `step` while `<= end`.
      The loop only stops when `step > 0` or it never starts. */
  method StepRangeToString(start: int, end: int, step: int) returns (r: string)
    requires step > 0 || start > end
    ensures r == SpaceJoined(StepInts(start, end, step))
  {
    var values: seq<string> := [];
    var i := start;
    while i <= end
      invariant step > 0 || i > end
      invariant values + Decimals(StepInts(i, end, step)) == Decimals(StepInts(start, end, step))
      decreases end - i
    {
      StepLoopStep(values, i, start, end, step);
      values := values + [Itoa(i)];
      i := i + step;
    }
    StepLoopDone(values, i, start, end, step);
    r := Join(values, " ");
  }

  // One round of each counting loop moves the next rendering from the
  // values still to come to the values already appended.

  lemma RangeLoopStep(values: seq<string>, i: int, start: int, end: int)
    requires i <= end
    requires values + Decimals(RangeInts(i, end)) == Decimals(RangeInts(start, end))
    ensures (values + [Itoa(i)]) + Decimals(RangeInts(i + 1, end)) == Decimals(RangeInts(start, end))
  {
    DecimalsCons(i, RangeInts(i + 1, end));
  }

  lemma StepLoopStep(values: seq<string>, i: int, start: int, end: int, step: int)
    requires i <= end && step > 0
    requires values + Decimals(StepInts(i, end, step)) == Decimals(StepInts(start, end, step))
    ensures (values + [Itoa(i)]) + Decimals(StepInts(i + step, end, step)) == Decimals(StepInts(start, end, step))
  {
    DecimalsCons(i, StepInts(i + step, end, step));
  }

  lemma RangeLoopDone(values: seq<string>, i: int, start: int, end: int)
    requires i > end
    requires values + Decimals(RangeInts(i, end)) == Decimals(RangeInts(start, end))
    ensures values == Decimals(RangeInts(start, end))
  {
    assert RangeInts(i, end) == [];
    assert values + [] == values;
  }

  lemma StepLoopDone(values: seq<string>, i: int, start: int, end: int, step: int)
    requires i > end && (step > 0 || start > end)
    requires values + Decimals(StepInts(i, end, step)) == Decimals(StepInts(start, end, step))
    ensures values == Decimals(StepInts(start, end, step))
  {
    assert StepInts(i, end, step) == [];
    assert values + [] == values;
  }

  /** A part containing `-` splits on it into at least two bounds, and its
      text is the range between the first two. */
  lemma RangePartBounds(part: string)
    requires Contains(part, "-")
    ensures var bounds := Split(part, '-');
      |bounds| >= 2 && PartText(part) == SpaceJoined(RangeInts(Atoi(bounds[0]), Atoi(bounds[1])))
  {
    ContainsChar(part, '-');
    SplitShape(part, '-');
  }

  /** `expandField`: the three forms in their fixed order. */
  method ExpandField(field: string, min: int, max: int) returns (r: string)
    requires StepTerminates(field, min, max)
    ensures r == FieldText(field, min, max)
  {
    if field == "*" {
      r := RangeToString(min, max);
      return;
    }
    if Contains(field, "*/") {
      var step := Atoi(TrimPrefix(field, "*/"));
      r := StepRangeToString(min, max, step);
      return;
    }
    var values: seq<string> := [];
    var parts := Split(field, ',');
    for k := 0 to |parts|
      invariant |values| == k
      invariant forall j :: 0 <= j < k ==> values[j] == PartText(parts[j])
    {
      var part := parts[k];
      var text: string;
      if Contains(part, "-") {
        RangePartBounds(part);
        var bounds := Split(part, '-');
        var start := Atoi(bounds[0]);
        var end := Atoi(bounds[1]);
        text := RangeToString(start, end);
      } else {
        text := part;
      }
      values := values + [text];
    }
    assert values == PartTexts(parts);
    r := Join(values, " ");
  }

  const Diagnostic := "Invalid cron string format. Expected 5 fields followed by a command."

  /** The label that starts each output line, padded to a common width. */
  const MinuteLabel := "minute        "
  const HourLabel := "hour          "
  const DayOfMonthLabel := "day of month  "
  const MonthLabel := "month         "
  const DayOfWeekLabel := "day of week   "
  const CommandLabel := "command       "

  /** `parseCron` finishes on `cron`: either it is rejected for arity, or
      none of its five fields is a step form that never stops within the
      field's bounds (minute 0-59, hour 0-23, day of month 1-31, month 1-12,
      day of week 0-6). */
  predicate CronTerminates(cron: string) {
    var f := Fields(cron);
    |f| < 6 ||
      (&& StepTerminates(f[0], 0, 59)
       && StepTerminates(f[1], 0, 23)
       && StepTerminates(f[2], 1, 31)
       && StepTerminates(f[3], 1, 12)
       && StepTerminates(f[4], 0, 6))
  }

  /** What `parseCron` prints for a well-formed line: the five expansions
      and the command. */
  datatype Report = Report(minute: string, hour: string, dayOfMonth: string,
                           month: string, dayOfWeek: string, command: string)

  /** The report for the tokens `f`: each field expanded within its bounds,
      and the tokens from the sixth on joined by single spaces. */
  function ReportOf(f: seq<string>): Report
    requires |f| >= 6
    requires StepTerminates(f[0], 0, 59) && StepTerminates(f[1], 0, 23) && StepTerminates(f[2], 1, 31)
    requires StepTerminates(f[3], 1, 12) && StepTerminates(f[4], 0, 6)
  {
    Report(FieldText(f[0], 0, 59), FieldText(f[1], 0, 23), FieldText(f[2], 1, 31),
           FieldText(f[3], 1, 12), FieldText(f[4], 0, 6), Join(f[5..], " "))
  }

  /** The six printed lines, each a label followed by its value. */
  function Lines(r: Report): seq<string> {
    [MinuteLabel + r.minute, HourLabel + r.hour, DayOfMonthLabel + r.dayOfMonth,
     MonthLabel + r.month, DayOfWeekLabel + r.dayOfWeek, CommandLabel + r.command]
  }

  /** `parseCron`, returning the lines it prints (each without its newline). */
  method ParseCron(cron: string) returns (lines: seq<string>)
    requires CronTerminates(cron)
    ensures |Fields(cron)| < 6 ==> lines == [Diagnostic]
    ensures |Fields(cron)| >= 6 ==> lines == Lines(ReportOf(Fields(cron)))
  {
    var fields := Fields(cron);
    if |fields| < 6 {
      lines := [Diagnostic];
      return;
    }
    var minute, hour, dayOfMonth, month, dayOfWeek := fields[0], fields[1], fields[2], fields[3], fields[4];
    var command := Join(fields[5..], " ");
    var m := ExpandField(minute, 0, 59);
    var h := ExpandField(hour, 0, 23);
    var dom := ExpandField(dayOfMonth, 1, 31);
    var mon := ExpandField(month, 1, 12);
    var dow := ExpandField(dayOfWeek, 0, 6);
    var report := Report(m, h, dom, mon, dow, command);
    lines := Lines(report);
  }

  // ---------------------------------------------------------------------
  // Properties
  // ---------------------------------------------------------------------

  /** `RangeInts(start, end)` holds `end - start + 1` values (none when
      `start > end`), the `k`-th being `start + k`. */
  lemma {:induction false} RangeIntsShape(start: int, end: int)
    ensures |RangeInts(start, end)| == if start <= end then end - start + 1 else 0
    ensures forall k :: 0 <= k < |RangeInts(start, end)| ==> RangeInts(start, end)[k] == start + k
    decreases end - start
  {
    if start <= end {
      RangeIntsShape(start + 1, end);
    }
  }

  /** A step sequence starts at `start` when the bound is non-empty, stays
      within `[start, end]`, and neighbouring values differ by `step`. */
  lemma {:induction false} StepIntsShape(start: int, end: int, step: int)
    requires step > 0 || start > end
    ensures var r := StepInts(start, end, step);
      && (start <= end ==> |r| >= 1 && r[0] == start)
      && (forall k :: 0 <= k < |r| ==> start <= r[k] <= end)
      && (forall k :: 0 <= k < |r| - 1 ==> r[k + 1] == r[k] + step)
    decreases end - start + step
  {
    if start <= end {
      StepIntsShape(start + step, end, step);
      var r, rest := StepInts(start, end, step), StepInts(start + step, end, step);
      assert r == [start] + rest;
      forall k | 0 <= k < |r| - 1
        ensures r[k + 1] == r[k] + step
      {
        if k > 0 {
          assert r[k + 1] == rest[k] && r[k] == rest[k - 1];
        }
      }
    }
  }

  /** A space-joined rendering is empty exactly when there are no values;
      otherwise it neither starts nor ends with a space, and splitting it on
      spaces gives back each value's rendering, in order, each of which
      parses back to the value. */
  lemma SpaceJoinedRoundTrip(xs: seq<int>)
    ensures xs == [] <==> SpaceJoined(xs) == ""
    ensures xs != [] ==> Split(SpaceJoined(xs), ' ') == Decimals(xs)
    ensures xs != [] ==> var s := SpaceJoined(xs); s[0] != ' ' && s[|s| - 1] != ' '
    ensures xs != [] ==> forall k :: 0 <= k < |xs| ==> Atoi(Split(SpaceJoined(xs), ' ')[k]) == xs[k]
  {
    if xs != [] {
      var ds := Decimals(xs);
      forall k | 0 <= k < |ds|
        ensures ds[k] == Itoa(xs[k])
      {
        DecimalsAt(xs, k);
      }
      SplitJoin(ds, ' ');
      JoinEnds(ds, " ");
      var s := SpaceJoined(xs);
      assert s[0] == ds[0][0];
      assert s[|s| - 1] == ds[|ds| - 1][|ds[|ds| - 1]| - 1];
      forall k | 0 <= k < |xs|
        ensures Atoi(Split(s, ' ')[k]) == xs[k]
      {
        DecimalsAt(xs, k);
        ParseItoa(xs[k]);
      }
    }
  }

  /** `rangeToString(start, end)` is empty when `start > end`; otherwise its
      space-separated pieces are the renderings of `start`, ..., `end`. */
  lemma RangeTextRoundTrip(start: int, end: int)
    ensures start > end ==> SpaceJoined(RangeInts(start, end)) == ""
    ensures start <= end ==>
      var pieces := Split(SpaceJoined(RangeInts(start, end)), ' ');
      && |pieces| == end - start + 1
      && forall k :: 0 <= k < |pieces| ==> pieces[k] == Itoa(start + k) && Atoi(pieces[k]) == start + k
  {
    var xs := RangeInts(start, end);
    RangeIntsShape(start, end);
    SpaceJoinedRoundTrip(xs);
    if start <= end {
      forall k | 0 <= k < |xs|
        ensures Decimals(xs)[k] == Itoa(start + k)
      {
        DecimalsAt(xs, k);
      }
    }
  }

  /** `expandField("*", min, max)`: exactly `min..max` ascending,
      `max - min + 1` values, single spaces, no space at either end. */
  lemma StarExpansion(min: int, max: int)
    ensures StepTerminates("*", min, max)
    ensures min > max ==> FieldText("*", min, max) == ""
    ensures min <= max ==>
      var text := FieldText("*", min, max);
      var pieces := Split(text, ' ');
      && text[0] != ' ' && text[|text| - 1] != ' '
      && |pieces| == max - min + 1
      && forall k :: 0 <= k < |pieces| ==> pieces[k] == Itoa(min + k)
  {
    SpaceJoinedRoundTrip(RangeInts(min, max));
    RangeTextRoundTrip(min, max);
  }

  /** The `k`-th value of a step sequence is the loop counter after `k` rounds. */
  lemma {:induction false} StepIntsAt(start: int, end: int, step: int, k: nat)
    requires step > 0 && k < |StepInts(start, end, step)|
    ensures StepInts(start, end, step)[k] == CounterAfter(start, step, k)
    decreases k
  {
    if k > 0 {
      StepIntsAt(start + step, end, step, k - 1);
      assert CounterAfter(start + step, step, k - 1) == CounterAfter(start, step, k) by {
        CounterAfterNext(start, step, k - 1);
      }
    }
  }

  lemma DivDown(x: int, d: int)
    requires d > 0 && x >= d
    ensures (x - d) / d == x / d - 1
  {
    var q, r := x / d, x % d;
    var q', r' := (x - d) / d, (x - d) % d;
    assert x == d * q + r && 0 <= r < d;
    assert x - d == d * q' + r' && 0 <= r' < d;
    var t := q - 1 - q';
    assert t * d == r' - r by {
      assert d * q - d == d * (q - 1);
      assert d * (q - 1) - d * q' == d * t;
    }
    assert t == 0;
  }

  lemma DivSmall(x: int, d: int)
    requires 0 <= x < d
    ensures x / d == 0
  {
  }

  /** A positive step over a non-empty bound visits `(end - start) / step + 1` values. */
  lemma {:induction false} StepIntsCount(start: int, end: int, step: int)
    requires step > 0 && start <= end
    ensures |StepInts(start, end, step)| == (end - start) / step + 1
    decreases end - start
  {
    if start + step > end {
      DivSmall(end - start, step);
    } else {
      StepIntsCount(start + step, end, step);
      DivDown(end - start, step);
    }
  }

  // `expandField("*" + "/n", min, max)` for a positive `n`: `min, min+n, ...`
  // while `<= max`, `(max - min) / n + 1` of them, the first being `min`.
  lemma StepExpansion(n: int, min: int, max: int)
    requires n > 0
    ensures Classify("*/" + Itoa(n)) == Step(n) && StepTerminates("*/" + Itoa(n), min, max)
    ensures min > max ==> FieldText("*/" + Itoa(n), min, max) == ""
    ensures min <= max ==>
      var pieces := Split(FieldText("*/" + Itoa(n), min, max), ' ');
      && |pieces| == (max - min) / n + 1
      && pieces[0] == Itoa(min)
      && forall k :: 0 <= k < |pieces| ==>
           pieces[k] == Itoa(CounterAfter(min, n, k)) && min <= CounterAfter(min, n, k) <= max
  {
    var field := "*/" + Itoa(n);
    assert HasPrefix(field, "*/");
    assert field != "*";
    assert TrimPrefix(field, "*/") == Itoa(n);
    ParseItoa(n);
    var xs := StepInts(min, max, n);
    SpaceJoinedRoundTrip(xs);
    StepIntsShape(min, max, n);
    if min <= max {
      StepIntsCount(min, max, n);
      forall k | 0 <= k < |xs|
        ensures Decimals(xs)[k] == Itoa(CounterAfter(min, n, k))
        ensures min <= CounterAfter(min, n, k) <= max
      {
        StepIntsAt(min, max, n, k);
        DecimalsAt(xs, k);
      }
    }
  }

  /** The counting loop `for i := start; i <= end; i += step` ever exits
      exactly when the step is positive or the loop never starts. */
  lemma StepLoopExits(start: int, end: int, step: int)
    ensures (exists n: nat :: CounterAfter(start, step, n) > end) <==> (step > 0 || start > end)
  {
    if start > end {
      assert CounterAfter(start, step, 0) > end;
    } else if step > 0 {
      var n: nat := end - start + 1;
      assert n * step >= n;
      assert CounterAfter(start, step, n) > end;
    } else {
      forall n: nat
        ensures CounterAfter(start, step, n) <= end
      {
        assert n * step <= 0;
      }
    }
  }

  /** A token that reaches the step branch with a suffix that does not parse,
      or parses to 0, gets step 0, and over a non-empty bound its loop never
      exits. */
  lemma StepBranchZero(field: string, min: int, max: int)
    requires Contains(field, "*/")
    requires ParseDecimal(TrimPrefix(field, "*/")) == None || ParseDecimal(TrimPrefix(field, "*/")) == Some(0)
    ensures Classify(field) == Step(0)
    ensures min <= max ==> !StepTerminates(field, min, max) && !exists n: nat :: CounterAfter(min, 0, n) > max
  {
    StepLoopExits(min, max, 0);
  }

  // The dispatch order: only the exact token `*` is the full range; every
  // other token containing `*/` is a step form, whatever else it holds; all
  // remaining tokens are comma lists whose parts, re-joined with commas,
  // give back the token.
  lemma DispatchOrder(field: string)
    ensures Classify(field).Every? <==> field == "*"
    ensures Classify(field).Step? <==> field != "*" && Contains(field, "*/")
    ensures Classify(field).List? ==>
      && Join(Classify(field).parts, ",") == field
      && forall k :: 0 <= k < |Classify(field).parts| ==> ',' !in Classify(field).parts[k]
  {
    JoinSplit(field, ',');
  }

  /** A comma list expands part by part, left to right, with no sorting and
      no check against the bounds. */
  lemma ListExpansion(parts: seq<string>, min: int, max: int)
    requires |parts| >= 1 && forall k :: 0 <= k < |parts| ==> ',' !in parts[k]
    requires Join(parts, ",") != "*" && !Contains(Join(parts, ","), "*/")
    ensures StepTerminates(Join(parts, ","), min, max)
    ensures FieldText(Join(parts, ","), min, max) == Join(PartTexts(parts), " ")
  {
    SplitJoin(parts, ',');
  }

  /** A comma list of parts with no `*` and no `-` expands to the same parts
      separated by single spaces instead of commas, whatever the bounds. */
  lemma LiteralList(parts: seq<string>, min: int, max: int)
    requires |parts| >= 1
    requires forall k :: 0 <= k < |parts| ==> ',' !in parts[k] && '-' !in parts[k] && '*' !in parts[k]
    ensures StepTerminates(Join(parts, ","), min, max)
    ensures FieldText(Join(parts, ","), min, max) == Join(parts, " ")
  {
    var field := Join(parts, ",");
    JoinAvoids(parts, ",", '*');
    ContainsFirst(field, "*/");
    assert field != "*" by {
      assert "*"[0] == '*';
    }
    ListExpansion(parts, min, max);
    forall k | 0 <= k < |parts|
      ensures PartTexts(parts)[k] == parts[k]
    {
      LiteralPart(parts[k]);
    }
    assert PartTexts(parts) == parts;
  }

  /** The bounds play no part in a comma list's expansion. */
  lemma ListIgnoresBounds(field: string, min: int, max: int, min': int, max': int)
    requires Classify(field).List?
    ensures FieldText(field, min, max) == FieldText(field, min', max')
  {
  }

  /** A part without `-` is copied as it is, without being parsed. */
  lemma LiteralPart(part: string)
    requires '-' !in part
    ensures PartText(part) == part
  {
    ContainsChar(part, '-');
  }

  /** A part `a-b`, possibly followed by a further `-` and anything, is the
      range from `Atoi(a)` to `Atoi(b)`; whatever follows the second `-` is
      ignored. */
  lemma RangePart(a: string, b: string, rest: string)
    requires '-' !in a && '-' !in b
    requires rest == "" || rest[0] == '-'
    ensures PartText(a + "-" + b + rest) == SpaceJoined(RangeInts(Atoi(a), Atoi(b)))
  {
    var part := a + "-" + b + rest;
    assert part[|a|] == '-';
    ContainsChar(part, '-');
    RangeBounds(a, b, rest);
  }

  /** Splitting `a-b`, possibly followed by `-` and more, on `-` gives `a`
      and then `b`. */
  lemma RangeBounds(a: string, b: string, rest: string)
    requires '-' !in a && '-' !in b
    requires rest == "" || rest[0] == '-'
    ensures var bounds := Split(a + "-" + b + rest, '-'); |bounds| >= 2 && bounds[0] == a && bounds[1] == b
  {
    assert a + "-" + b + rest == a + ['-'] + (b + rest);
    SplitAtFirst(a, b + rest, '-');
    if rest == "" {
      assert b + rest == b;
      SplitNoSeparator(b, '-');
    } else {
      assert b + rest == b + ['-'] + rest[1..];
      SplitAtFirst(b, rest[1..], '-');
    }
  }

  /** A token `a-b` alone, with `a` and `b` free of `-`, `,` and `*`, is the
      range from `Atoi(a)` to `Atoi(b)`, whatever the field's bounds. */
  lemma SingleRange(a: string, b: string, min: int, max: int)
    requires '-' !in a && ',' !in a && '*' !in a
    requires '-' !in b && ',' !in b && '*' !in b
    ensures StepTerminates(a + "-" + b, min, max)
    ensures FieldText(a + "-" + b, min, max) == SpaceJoined(RangeInts(Atoi(a), Atoi(b)))
  {
    var part := a + "-" + b;
    assert part == a + "-" + b + "";
    assert ',' !in part && '*' !in part;
    assert Join([part], ",") == part;
    ContainsFirst(part, "*/");
    assert part != "*" by {
      assert part[|a|] == '-';
    }
    ListExpansion([part], min, max);
    RangePart(a, b, "");
    assert PartTexts([part]) == [PartText(part)];
  }

  /** A range part whose lower bound exceeds its upper bound expands to the
      empty text. */
  lemma EmptyRangePart(a: string, b: string)
    requires '-' !in a && '-' !in b && Atoi(a) > Atoi(b)
    ensures PartText(a + "-" + b) == ""
  {
    assert a + "-" + b == a + "-" + b + "";
    RangePart(a, b, "");
    assert RangeInts(Atoi(a), Atoi(b)) == [];
  }

  lemma PartTextsCons(part: string, more: seq<string>)
    ensures PartTexts([part] + more) == [PartText(part)] + PartTexts(more)
  {
    var parts := [part] + more;
    var l, r := PartTexts(parts), [PartText(part)] + PartTexts(more);
    forall k | 0 <= k < |parts|
      ensures l[k] == r[k]
    {
      if k > 0 {
        assert parts[k] == more[k - 1];
      }
    }
    assert l == r;
  }

  /** At the head of a longer list, an empty range leaves a leading space. */
  lemma EmptyRangeFirst(a: string, b: string, more: seq<string>, min: int, max: int)
    requires '-' !in a && '-' !in b && Atoi(a) > Atoi(b)
    requires |more| >= 1
    requires var parts := [a + "-" + b] + more;
      && (forall k :: 0 <= k < |parts| ==> ',' !in parts[k])
      && Join(parts, ",") != "*" && !Contains(Join(parts, ","), "*/")
    ensures StepTerminates(Join([a + "-" + b] + more, ","), min, max)
    ensures FieldText(Join([a + "-" + b] + more, ","), min, max) == " " + Join(PartTexts(more), " ")
  {
    var parts := [a + "-" + b] + more;
    EmptyRangePart(a, b);
    ListExpansion(parts, min, max);
    PartTextsCons(a + "-" + b, more);
    JoinFront(PartTexts(more), " ");
  }

  /** A command line laid out as words separated by runs of whitespace,
      with whitespace allowed at either end, is read back word for word: the
      first five words are the fields, and the command is the remaining words
      re-joined with single spaces, whatever whitespace separated them. */
  lemma CronLayout(words: seq<string>, gaps: seq<string>)
    requires |words| >= 6 && |gaps| == |words| + 1 && Separating(gaps)
    requires forall k :: 0 <= k < |words| ==> words[k] != "" && NoSpace(words[k])
    ensures var fields := Fields(Layout(words, gaps));
      && |fields| >= 6
      && fields[..5] == words[..5]
      && Join(fields[5..], " ") == Join(words[5..], " ")
  {
    FieldsLayout(words, gaps);
  }

  /** Every printed line is its label, padded to fourteen characters, then
      the value; the labels are distinct, so each line names its field. */
  lemma {:induction false} LinesLayout(r: Report)
    ensures var lines, labels := Lines(r), [MinuteLabel, HourLabel, DayOfMonthLabel, MonthLabel, DayOfWeekLabel, CommandLabel];
      var values := [r.minute, r.hour, r.dayOfMonth, r.month, r.dayOfWeek, r.command];
      && |lines| == 6
      && forall k :: 0 <= k < 6 ==>
           |labels[k]| == 14 && lines[k][..14] == labels[k] && lines[k][14..] == values[k]
           && forall j :: 0 <= j < 6 && j != k ==> labels[j] != labels[k]
  {
    var lines, labels := Lines(r), [MinuteLabel, HourLabel, DayOfMonthLabel, MonthLabel, DayOfWeekLabel, CommandLabel];
    var values := [r.minute, r.hour, r.dayOfMonth, r.month, r.dayOfWeek, r.command];
    forall k | 0 <= k < 6
      ensures lines[k] == labels[k] + values[k]
    {
    }
    forall k, j | 0 <= k < 6 && 0 <= j < 6 && j != k
      ensures labels[j] != labels[k]
    {
      assert labels[j][0] != labels[k][0] || labels[j][1] != labels[k][1] || labels[j][7] != labels[k][7];
    }
  }

  /** A command line made of words separated by runs of whitespace: the five
      fields are the first five words, expanded within their bounds, and the
      command is the remaining words re-joined with single spaces. */
  lemma CronOfWords(words: seq<string>, gaps: seq<string>)
    requires |words| >= 6 && |gaps| == |words| + 1 && Separating(gaps)
    requires forall k :: 0 <= k < |words| ==> words[k] != "" && NoSpace(words[k])
    requires StepTerminates(words[0], 0, 59) && StepTerminates(words[1], 0, 23) && StepTerminates(words[2], 1, 31)
    requires StepTerminates(words[3], 1, 12) && StepTerminates(words[4], 0, 6)
    ensures Fields(Layout(words, gaps)) == words && CronTerminates(Layout(words, gaps))
    ensures ReportOf(Fields(Layout(words, gaps))) ==
      Report(FieldText(words[0], 0, 59), FieldText(words[1], 0, 23), FieldText(words[2], 1, 31),
             FieldText(words[3], 1, 12), FieldText(words[4], 0, 6), Join(words[5..], " "))
  {
    FieldsLayout(words, gaps);
  }

  /** The step loop `expandField` runs for `field` never exits: the token is
      a step form and the counter never passes `max`. */
  ghost predicate StepRunsForever(field: string, min: int, max: int) {
    Classify(field).Step? && forall n: nat :: CounterAfter(min, Classify(field).step, n) <= max
  }

  /** `parseCron` finishes unless some field is a step form whose step is not
      positive (all five bounds are non-empty); and when it is not known to
      finish, one of the five step loops really never exits. */
  lemma CronTerminatesIff(cron: string)
    ensures CronTerminates(cron) <==>
      (|Fields(cron)| < 6 || forall k :: 0 <= k < 5 ==> !Classify(Fields(cron)[k]).Step? || Classify(Fields(cron)[k]).step > 0)
    ensures !CronTerminates(cron) <==>
      var f := Fields(cron);
      && |f| >= 6
      && (|| StepRunsForever(f[0], 0, 59) || StepRunsForever(f[1], 0, 23) || StepRunsForever(f[2], 1, 31)
          || StepRunsForever(f[3], 1, 12) || StepRunsForever(f[4], 0, 6))
  {
    var f := Fields(cron);
    if |f| >= 6 {
      StepForever(f[0], 0, 59);
      StepForever(f[1], 0, 23);
      StepForever(f[2], 1, 31);
      StepForever(f[3], 1, 12);
      StepForever(f[4], 0, 6);
    }
  }

  /** A field's expansion fails to finish exactly when its step loop never
      exits. */
  lemma StepForever(field: string, min: int, max: int)
    ensures !StepTerminates(field, min, max) <==> StepRunsForever(field, min, max)
  {
    if Classify(field).Step? {
      StepLoopExits(min, max, Classify(field).step);
    }
  }
}
