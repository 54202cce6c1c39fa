/**
  Concrete expansions: the rows of the unit test in `cmd/parse_test.go`, and
  further tokens that show the dispatch order and the expander's quirks.
  Each is derived from the general lemmas of `CronParse`. The expected text
  is assembled in small steps (the renderings, then their join), each over
  parameters that stand for the literals; the sixty-value row is stated
  through the values it renders.
 */
module CronExamples {
  import opened Strings
  import opened Decimal
  import opened CronParse

  // ---------------------------------------------------------------------
  // The unit-test table
  // ---------------------------------------------------------------------

  /** `*` over 0-59: sixty pieces, the `k`-th being the rendering of `k`. */
  lemma StarMinutes()
    ensures var pieces := Split(FieldText("*", 0, 59), ' ');
      |pieces| == 60 && forall k :: 0 <= k < 60 ==> pieces[k] == Itoa(k)
  {
    StarExpansion(0, 59);
  }

  // `*/15` over 0-59.
  lemma StepFifteenMinutes()
    ensures StepTerminates("*/15", 0, 59) && FieldText("*/15", 0, 59) == "0 15 30 45"
  {
    assert "*/15" == "*/" + Itoa(15);
    StepForm(15);
    assert StepInts(0, 59, 15) == [0, 15, 30, 45];
    StepFifteenText(StepInts(0, 59, 15));
  }

  lemma StepFifteenText(xs: seq<int>)
    requires xs == [0, 15, 30, 45]
    ensures SpaceJoined(xs) == "0 15 30 45"
  {
    var ds := ["0", "15", "30", "45"];
    StepFifteenDigits();
    forall k | 0 <= k < 4
      ensures Itoa(xs[k]) == ds[k]
    {
      if k == 0 {} else if k == 1 {} else if k == 2 {} else {}
    }
    SpaceJoinedAs(xs, ds);
    StepFifteenJoin(ds);
  }

  lemma StepFifteenDigits()
    ensures Itoa(0) == "0" && Itoa(15) == "15" && Itoa(30) == "30" && Itoa(45) == "45"
  {
  }

  lemma StepFifteenJoin(ds: seq<string>)
    requires ds == ["0", "15", "30", "45"]
    ensures Join(ds, " ") == "0 15 30 45"
  {
    assert Join(ds[2..], " ") == "30" + " " + Join(ds[3..], " ");
    assert Join(ds[1..], " ") == "15" + " " + Join(ds[2..], " ");
  }

  // `*/5` over 1-31.
  lemma StepFiveDays()
    ensures StepTerminates("*/5", 1, 31)
    ensures FieldText("*/5", 1, 31) == "1 6 11 16 21 26 31"
  {
    assert "*/5" == "*/" + Itoa(5);
    StepForm(5);
    assert StepInts(1, 31, 5) == [1, 6, 11, 16, 21, 26, 31];
    StepFiveDaysText(StepInts(1, 31, 5));
  }

  // The text is built piece by piece from `xs` and `ds`, which stand for the
  // listed values, rather than computed from the literals in one go.
  lemma StepFiveDaysText(xs: seq<int>)
    requires xs == [1, 6, 11, 16, 21, 26, 31]
    ensures SpaceJoined(xs) == "1 6 11 16 21 26 31"
  {
    var ds := ["1", "6", "11", "16", "21", "26", "31"];
    StepFiveDaysDigits();
    forall k | 0 <= k < 7
      ensures Itoa(xs[k]) == ds[k]
    {
      if k == 0 {} else if k == 1 {} else if k == 2 {} else if k == 3 {} else if k == 4 {} else if k == 5 {} else {}
    }
    SpaceJoinedAs(xs, ds);
    StepFiveDaysJoin(ds);
  }

  lemma StepFiveDaysDigits()
    ensures Itoa(1) == "1" && Itoa(6) == "6" && Itoa(11) == "11" && Itoa(16) == "16"
    ensures Itoa(21) == "21" && Itoa(26) == "26" && Itoa(31) == "31"
  {
  }

  lemma StepFiveDaysJoin(ds: seq<string>)
    requires ds == ["1", "6", "11", "16", "21", "26", "31"]
    ensures Join(ds, " ") == "1 6 11 16 21 26 31"
  {
    JoinHead(ds[..3]);
    JoinTail(ds[3..]);
    JoinAppend(ds[..3], ds[3..], " ");
    assert ds[..3] + ds[3..] == ds;
  }

  lemma JoinHead(ds: seq<string>)
    requires ds == ["1", "6", "11"]
    ensures Join(ds, " ") == "1 6 11"
  {
    assert Join(ds[1..], " ") == "6" + " " + Join(ds[2..], " ");
  }

  lemma JoinTail(ds: seq<string>)
    requires ds == ["16", "21", "26", "31"]
    ensures Join(ds, " ") == "16 21 26 31"
  {
    assert Join(ds[2..], " ") == "26" + " " + Join(ds[3..], " ");
    assert Join(ds[1..], " ") == "21" + " " + Join(ds[2..], " ");
  }

  /** `1,15` over 0-59: both parts copied. */
  lemma ListOfMinutes()
    ensures StepTerminates("1,15", 0, 59) && FieldText("1,15", 0, 59) == "1 15"
  {
    var parts := ["1", "15"];
    assert Join(parts, ",") == "1,15";
    LiteralList(parts, 0, 59);
    assert Join(parts, " ") == "1 15";
  }

  /** `1-5` over 1-5. */
  lemma RangeOneToFive()
    ensures StepTerminates("1-5", 1, 5) && FieldText("1-5", 1, 5) == "1 2 3 4 5"
  {
    assert "1-5" == "1" + "-" + "5";
    SingleRange("1", "5", 1, 5);
    RangeOneToFiveText(Atoi("1"), Atoi("5"));
  }

  lemma RangeOneToFiveText(lo: int, hi: int)
    requires lo == 1 && hi == 5
    ensures SpaceJoined(RangeInts(lo, hi)) == "1 2 3 4 5"
  {
    var xs, ds := RangeInts(lo, hi), ["1", "2", "3", "4", "5"];
    RangeIntsShape(lo, hi);
    OneToFiveDigits();
    forall k | 0 <= k < 5
      ensures Itoa(xs[k]) == ds[k]
    {
      if k == 0 {} else if k == 1 {} else if k == 2 {} else if k == 3 {} else {}
    }
    SpaceJoinedAs(xs, ds);
    OneToFiveJoin(ds);
  }

  lemma OneToFiveDigits()
    ensures Itoa(1) == "1" && Itoa(2) == "2" && Itoa(3) == "3" && Itoa(4) == "4" && Itoa(5) == "5"
  {
  }

  lemma OneToFiveJoin(ds: seq<string>)
    requires ds == ["1", "2", "3", "4", "5"]
    ensures Join(ds, " ") == "1 2 3 4 5"
  {
    assert Join(ds[3..], " ") == "4" + " " + Join(ds[4..], " ");
    assert Join(ds[2..], " ") == "3" + " " + Join(ds[3..], " ");
    assert Join(ds[1..], " ") == "2" + " " + Join(ds[2..], " ");
  }

  /** `5` over 0-59: a single literal. */
  lemma SingleMinute()
    ensures StepTerminates("5", 0, 59) && FieldText("5", 0, 59) == "5"
  {
    assert Join(["5"], ",") == "5" && Join(["5"], " ") == "5";
    LiteralList(["5"], 0, 59);
  }

  // ---------------------------------------------------------------------
  // Quirks
  // ---------------------------------------------------------------------

  /** A range is not clipped to the field's bounds: `59-61` over 0-59 runs
      past 59. */
  lemma RangePastBounds()
    ensures StepTerminates("59-61", 0, 59) && FieldText("59-61", 0, 59) == "59 60 61"
  {
    assert "59-61" == "59" + "-" + "61";
    SingleRange("59", "61", 0, 59);
    RangePastBoundsText("59", "61");
  }

  lemma RangePastBoundsText(a: string, b: string)
    requires a == "59" && b == "61"
    ensures SpaceJoined(RangeInts(Atoi(a), Atoi(b))) == "59 60 61"
  {
    PastBoundsDigits();
    ParseItoa(59);
    ParseItoa(61);
    var lo, hi := Atoi(a), Atoi(b);
    var xs, ds := RangeInts(lo, hi), ["59", "60", "61"];
    RangeIntsShape(lo, hi);
    forall k | 0 <= k < 3
      ensures Itoa(xs[k]) == ds[k]
    {
      if k == 0 {} else if k == 1 {} else {}
    }
    SpaceJoinedAs(xs, ds);
    PastBoundsJoin(ds);
  }

  lemma PastBoundsDigits()
    ensures Itoa(59) == "59" && Itoa(60) == "60" && Itoa(61) == "61"
  {
  }

  lemma PastBoundsJoin(ds: seq<string>)
    requires ds == ["59", "60", "61"]
    ensures Join(ds, " ") == "59 60 61"
  {
    assert Join(ds[1..], " ") == "60" + " " + Join(ds[2..], " ");
  }

  /** A leading dash reads the empty lower bound as 0. */
  lemma LeadingDashFromZero()
    ensures StepTerminates("-3", 0, 59) && FieldText("-3", 0, 59) == "0 1 2 3"
  {
    assert "-3" == "" + "-" + "3";
    SingleRange("", "3", 0, 59);
    AtoiOfNoDigits("");
    assert Atoi("3") == 3;
    LeadingDashText(Atoi(""), Atoi("3"));
  }

  lemma LeadingDashText(lo: int, hi: int)
    requires lo == 0 && hi == 3
    ensures SpaceJoined(RangeInts(lo, hi)) == "0 1 2 3"
  {
    var xs, ds := RangeInts(lo, hi), ["0", "1", "2", "3"];
    RangeIntsShape(lo, hi);
    LeadingDashDigits();
    forall k | 0 <= k < 4
      ensures Itoa(xs[k]) == ds[k]
    {
      if k == 0 {} else if k == 1 {} else if k == 2 {} else {}
    }
    SpaceJoinedAs(xs, ds);
    LeadingDashJoin(ds);
  }

  lemma LeadingDashDigits()
    ensures Itoa(0) == "0" && Itoa(1) == "1" && Itoa(2) == "2" && Itoa(3) == "3"
  {
  }

  lemma LeadingDashJoin(ds: seq<string>)
    requires ds == ["0", "1", "2", "3"]
    ensures Join(ds, " ") == "0 1 2 3"
  {
    assert Join(ds[2..], " ") == "2" + " " + Join(ds[3..], " ");
    assert Join(ds[1..], " ") == "1" + " " + Join(ds[2..], " ");
  }

  /** A `*` that is not the whole token is copied as a literal part. */
  lemma StarInList()
    ensures StepTerminates("*,5", 0, 59) && FieldText("*,5", 0, 59) == "* 5"
  {
    StarInListForm();
    LiteralPart("*");
    LiteralPart("5");
    assert PartTexts(["*", "5"]) == ["*", "5"];
  }

  lemma StarInListForm()
    ensures Classify("*,5") == List(["*", "5"])
  {
    forall i
      ensures !OccursAt("*,5", "*/", i)
    {
      if 0 <= i <= 1 {
        assert "*,5"[i..i + 2][1] == "*,5"[i + 1];
      }
    }
    assert Join(["*", "5"], ",") == "*,5";
    SplitJoin(["*", "5"], ',');
  }

  // `*/` anywhere in the token selects the step form: in `a*/5` the prefix
  // is not `*/`, so the whole token is read as the step and gives 0, and
  // the expansion over 0-59 never finishes.
  lemma StepAnywhere()
    ensures Classify("a*/5") == Step(0) && !StepTerminates("a*/5", 0, 59)
  {
    assert OccursAt("a*/5", "*/", 1);
    assert "a*/5"[..2][0] == 'a';
    AtoiOfNonDigit("a*/5", 0);
  }

  /** A step form with a list after it has an unparsable step, hence 0. */
  lemma StepThenListIsZero()
    ensures Classify("*/5,10") == Step(0) && !StepTerminates("*/5,10", 1, 31)
  {
    assert HasPrefix("*/5,10", "*/");
    assert TrimPrefix("*/5,10", "*/") == "5,10";
    AtoiOfNonDigit("5,10", 1);
  }

  // ---------------------------------------------------------------------
  // Helpers
  // ---------------------------------------------------------------------

  /** Values whose renderings are `ds` join to `ds` separated by spaces. */
  lemma SpaceJoinedAs(xs: seq<int>, ds: seq<string>)
    requires |xs| == |ds| && forall k :: 0 <= k < |xs| ==> Itoa(xs[k]) == ds[k]
    ensures SpaceJoined(xs) == Join(ds, " ")
  {
    forall k | 0 <= k < |xs|
      ensures Decimals(xs)[k] == ds[k]
    {
      DecimalsAt(xs, k);
    }
    assert Decimals(xs) == ds;
  }

  // `*/n` for positive `n` is read as the step form with step `n`.
  lemma StepForm(n: int)
    requires n > 0
    ensures Classify("*/" + Itoa(n)) == Step(n)
  {
    StepExpansion(n, 0, 0);
  }
}
