/**
 * The analysis agent's deterministic parts: relative deadline parsing,
 * deadline bucketing, the topic comparison of two meetings, and the decision
 * list handed to the conflict-detection model. Dates are day numbers in the
 * proleptic Gregorian ordinal (day 1 is Monday, 1 January of year 1); the
 * time of day cancels out because every parsed deadline is the reference
 * moment plus whole days.
 */
module Analyzer {
  import opened Wrappers
  import opened Text
  import opened Rows
  import GraphModel
  import opened Neo4jClient

  /** `date.weekday()`: Monday is 0. */
  function Weekday(d: int): (w: int)
    ensures 0 <= w < 7
  {
    (d + 6) % 7
  }

  /** The day-name table, in its iteration order Monday to Sunday; a name's index is its weekday. */
  const DayNames: seq<string> := ["monday", "tuesday", "wednesday", "thursday", "friday", "saturday", "sunday"]

  /** The first day name from index `k` on that occurs in `s`. */
  function FirstDayIn(s: string, k: nat): (r: Option<nat>)
    requires k <= 7
    ensures r.Some? ==> k <= r.value < 7 && Contains(s, DayNames[r.value])
    ensures r.Some? ==> forall j :: k <= j < r.value ==> !Contains(s, DayNames[j])
    ensures r.None? ==> forall j :: k <= j < 7 ==> !Contains(s, DayNames[j])
    decreases 7 - k
  {
    if k == 7 then None
    else if Contains(s, DayNames[k]) then Some(k)
    else FirstDayIn(s, k + 1)
  }

  /** `day_num - current_day`, moved into the following week when not ahead. */
  function DaysAhead(dayNum: int, current: int): int {
    var ahead := dayNum - current;
    if ahead <= 0 then ahead + 7 else ahead
  }

  /** `_parse_deadline`: the deadline day for a relative description, or `None`. */
  function ParseDeadline(deadline: string, reference: int): Option<int> {
    ParseNormalized(Strip(Lower(deadline)), reference)
  }

  /**
   * The parse of the trimmed lower-case text: day names first, in table
   * order, then the relative terms. Python's `%` with a positive divisor
   * agrees with Dafny's.
   */
  function ParseNormalized(s: string, reference: int): Option<int> {
    match FirstDayIn(s, 0)
    case Some(day) => Some(reference + DaysAhead(day, Weekday(reference)))
    case None =>
      if Contains(s, "today") || Contains(s, "eod") then Some(reference)
      else if Contains(s, "tomorrow") then Some(reference + 1)
      else if Contains(s, "next week") then Some(reference + 7)
      else if Contains(s, "end of week") then Some(reference + (4 - Weekday(reference)) % 7)
      else None
  }

  /** Any parsed deadline lies 0 to 7 days after the reference day. */
  lemma ParsedOffsetRange(deadline: string, reference: int)
    requires ParseDeadline(deadline, reference).Some?
    ensures 0 <= ParseDeadline(deadline, reference).value - reference <= 7
  {
  }

  /** Adding whole weeks does not change a weekday. */
  lemma WeekdayShift(r: int, k: int)
    ensures Weekday(r + k) == (Weekday(r) + k) % 7
  {
    var q := (r + 6) / 7;
    assert r + 6 == 7 * q + Weekday(r);
    assert r + k + 6 == 7 * q + (Weekday(r) + k);
  }

  /** Moving to weekday `day` takes 1 to 7 days; to today's weekday, exactly 7. */
  lemma DaysAheadLands(r: int, day: int)
    requires 0 <= day < 7
    ensures var k := DaysAhead(day, Weekday(r));
      1 <= k <= 7 && Weekday(r + k) == day && (day == Weekday(r) ==> k == 7)
  {
    var k := DaysAhead(day, Weekday(r));
    WeekdayShift(r, k);
    assert Weekday(r) + k == day || Weekday(r) + k == day + 7;
  }

  /** A day name lands 1 to 7 days ahead on that weekday; naming today's weekday means a week from now. */
  lemma WeekdayDeadline(deadline: string, reference: int, day: nat)
    requires FirstDayIn(Strip(Lower(deadline)), 0) == Some(day)
    ensures var d := ParseDeadline(deadline, reference).value;
      && 1 <= d - reference <= 7 && Weekday(d) == day
      && (day == Weekday(reference) ==> d == reference + 7)
  {
    DayNameNormalized(Strip(Lower(deadline)), reference, day);
  }

  lemma DayNameNormalized(s: string, reference: int, day: nat)
    requires FirstDayIn(s, 0) == Some(day)
    ensures var d := ParseNormalized(s, reference).value;
      && 1 <= d - reference <= 7 && Weekday(d) == day
      && (day == Weekday(reference) ==> d == reference + 7)
  {
    DaysAheadLands(reference, day);
  }

  /** `(4 - weekday) % 7` days ahead is 0 to 6 days away and a Friday. */
  lemma EndOfWeekLands(r: int)
    ensures var k := (4 - Weekday(r)) % 7;
      0 <= k <= 6 && Weekday(r + k) == 4
  {
    var k := (4 - Weekday(r)) % 7;
    assert k == if Weekday(r) <= 4 then 4 - Weekday(r) else 11 - Weekday(r);
    WeekdayShift(r, k);
  }

  lemma EndOfWeekNormalized(s: string, reference: int)
    requires && FirstDayIn(s, 0).None? && !Contains(s, "today") && !Contains(s, "eod")
      && !Contains(s, "tomorrow") && !Contains(s, "next week") && Contains(s, "end of week")
    ensures var d := ParseNormalized(s, reference).value;
      0 <= d - reference <= 6 && Weekday(d) == 4
  {
    EndOfWeekLands(reference);
  }

  /** "end of week" (with no day name or earlier term present) lands 0 to 6 days ahead, on a Friday. */
  lemma EndOfWeekIsFriday(deadline: string, reference: int)
    requires var s := Strip(Lower(deadline));
      && FirstDayIn(s, 0).None? && !Contains(s, "today") && !Contains(s, "eod")
      && !Contains(s, "tomorrow") && !Contains(s, "next week") && Contains(s, "end of week")
    ensures var d := ParseDeadline(deadline, reference).value;
      0 <= d - reference <= 6 && Weekday(d) == 4
  {
    EndOfWeekNormalized(Strip(Lower(deadline)), reference);
  }

  /** A deadline parses exactly when one of the twelve keywords occurs in its trimmed lower-case text. */
  lemma ParseFailsIffNoKeyword(deadline: string, reference: int)
    ensures var s := Strip(Lower(deadline));
      ParseDeadline(deadline, reference).None? <==>
        (forall j :: 0 <= j < 7 ==> !Contains(s, DayNames[j])) &&
        !Contains(s, "today") && !Contains(s, "eod") && !Contains(s, "tomorrow") &&
        !Contains(s, "next week") && !Contains(s, "end of week")
  {
    var s := Strip(Lower(deadline));
    if FirstDayIn(s, 0).Some? {
      assert Contains(s, DayNames[FirstDayIn(s, 0).value]);
    }
  }

  lemma FridayText()
    ensures Strip(Lower("Friday")) == "friday"
  {
    var l := Lower("Friday");
    assert l[0] == 'f' && l[1] == 'r' && l[2] == 'i' && l[3] == 'd' && l[4] == 'a' && l[5] == 'y';
    assert l == "friday";
    StripUnpadded("friday");
  }

  lemma FridayFound()
    ensures FirstDayIn("friday", 0) == Some(4)
  {
    var s := "friday";
    assert !StartsWith(s, "monday");
    if Contains(s, "monday") {
      ContainsNeedsRoom(s[1..], "monday");
    }
    if Contains(s, "tuesday") {
      ContainsNeedsRoom(s, "tuesday");
    }
    if Contains(s, "wednesday") {
      ContainsNeedsRoom(s, "wednesday");
    }
    if Contains(s, "thursday") {
      ContainsNeedsRoom(s, "thursday");
    }
    assert StartsWith(s, "friday");
  }

  /** "Friday" from Monday 2024-01-15 (day 738900) is Friday 2024-01-19. */
  lemma FridayFromMonday()
    ensures ParseDeadline("Friday", 738900) == Some(738904)
  {
    FridayText();
    FridayFound();
    assert Weekday(738900) == 0;
  }

  // ---------------------------------------------------------------------------
  // Deadline buckets

  datatype Bucket = Overdue | DueSoon | Upcoming | NoDeadline

  /** The `item_data` dict built for each row; a missing status reads 'pending'. */
  datatype ItemData = ItemData(task: Value, deadline: Value, owner: Value, status: Value, priority: Value, meeting: Value)

  function ItemOf(row: Row): (d: ItemData)
    ensures HasKey(row, "status") ==> d.status == Get(row, "status")
    ensures !HasKey(row, "status") ==> d.status == Str("pending")
  {
    ItemData(Get(row, "task"), Get(row, "deadline"), Get(row, "owner"),
             GetOr(row, "status", Str("pending")), Get(row, "priority"), Get(row, "meeting"))
  }

  /** Deadline values come from string properties: a string or `None`, never a number or a list. */
  predicate TextDeadline(row: Row) {
    Get(row, "deadline").Null? || Get(row, "deadline").Str?
  }

  /** The bucket of one row: no deadline, overdue, due within two days, or later (or unparseable). */
  function BucketOf(row: Row, today: int): (b: Bucket)
    requires TextDeadline(row)
    ensures b == NoDeadline <==> !Truthy(Get(row, "deadline"))
    ensures b == DueSoon ==> ParseDeadline(Get(row, "deadline").s, today).Some?
    ensures Truthy(Get(row, "deadline")) && ParseDeadline(Get(row, "deadline").s, today).None? ==> b == Upcoming
    ensures Truthy(Get(row, "deadline")) && ParseDeadline(Get(row, "deadline").s, today).Some? ==>
      var daysUntil := ParseDeadline(Get(row, "deadline").s, today).value - today;
      && (b == Overdue <==> daysUntil < 0)
      && (b == DueSoon <==> 0 <= daysUntil <= 2)
      && (b == Upcoming <==> daysUntil > 2)
  {
    var deadline := Get(row, "deadline");
    if !Truthy(deadline) then NoDeadline
    else match ParseDeadline(deadline.s, today)
      case Some(d) =>
        var daysUntil := d - today;
        if daysUntil < 0 then Overdue else if daysUntil <= 2 then DueSoon else Upcoming
      case None => Upcoming
  }

  /** A parsed deadline is never in the past, so no row is ever overdue. */
  lemma NeverOverdue(row: Row, today: int)
    requires TextDeadline(row)
    ensures BucketOf(row, today) != Overdue
  {
    var deadline := Get(row, "deadline");
    if Truthy(deadline) && ParseDeadline(deadline.s, today).Some? {
      ParsedOffsetRange(deadline.s, today);
    }
  }

  /** The items of the rows in bucket `b`, in row order. */
  function InBucket(rows: seq<Row>, today: int, b: Bucket): (items: seq<ItemData>)
    requires forall i :: 0 <= i < |rows| ==> TextDeadline(rows[i])
    ensures |items| <= |rows|
  {
    if |rows| == 0 then []
    else
      var last := rows[|rows| - 1];
      InBucket(rows[..|rows| - 1], today, b) + (if BucketOf(last, today) == b then [ItemOf(last)] else [])
  }

  lemma InBucketStep(rows: seq<Row>, i: nat, today: int, b: Bucket)
    requires i < |rows| && forall j :: 0 <= j < |rows| ==> TextDeadline(rows[j])
    ensures InBucket(rows[..i + 1], today, b) ==
      InBucket(rows[..i], today, b) + (if BucketOf(rows[i], today) == b then [ItemOf(rows[i])] else [])
  {
    assert rows[..i + 1][..i] == rows[..i];
  }

  /** A bucket list holds the item of every row in that bucket, and nothing else. */
  lemma InBucketHolds(rows: seq<Row>, today: int, b: Bucket)
    requires forall i :: 0 <= i < |rows| ==> TextDeadline(rows[i])
    ensures forall i :: 0 <= i < |rows| && BucketOf(rows[i], today) == b ==> ItemOf(rows[i]) in InBucket(rows, today, b)
    ensures forall x :: x in InBucket(rows, today, b) ==>
      exists i :: 0 <= i < |rows| && BucketOf(rows[i], today) == b && x == ItemOf(rows[i])
  {
    InBucketHas(rows, today, b);
    InBucketOnly(rows, today, b);
  }

  lemma {:induction false} InBucketHas(rows: seq<Row>, today: int, b: Bucket)
    requires forall i :: 0 <= i < |rows| ==> TextDeadline(rows[i])
    ensures forall i :: 0 <= i < |rows| && BucketOf(rows[i], today) == b ==> ItemOf(rows[i]) in InBucket(rows, today, b)
  {
    if |rows| > 0 {
      var front := rows[..|rows| - 1];
      var last := rows[|rows| - 1];
      InBucketHas(front, today, b);
      var items := InBucket(rows, today, b);
      assert items == InBucket(front, today, b) + (if BucketOf(last, today) == b then [ItemOf(last)] else []);
      forall i | 0 <= i < |rows| - 1 && BucketOf(rows[i], today) == b
        ensures ItemOf(rows[i]) in items
      {
        assert rows[i] == front[i];
      }
    }
  }

  lemma {:induction false} InBucketOnly(rows: seq<Row>, today: int, b: Bucket)
    requires forall i :: 0 <= i < |rows| ==> TextDeadline(rows[i])
    ensures forall x :: x in InBucket(rows, today, b) ==>
      exists i :: 0 <= i < |rows| && BucketOf(rows[i], today) == b && x == ItemOf(rows[i])
  {
    if |rows| > 0 {
      var front := rows[..|rows| - 1];
      var last := rows[|rows| - 1];
      InBucketOnly(front, today, b);
      var items := InBucket(rows, today, b);
      assert items == InBucket(front, today, b) + (if BucketOf(last, today) == b then [ItemOf(last)] else []);
      forall x | x in InBucket(front, today, b)
        ensures exists i :: 0 <= i < |rows| && BucketOf(rows[i], today) == b && x == ItemOf(rows[i])
      {
        var j :| 0 <= j < |front| && BucketOf(front[j], today) == b && x == ItemOf(front[j]);
        assert rows[j] == front[j];
      }
    }
  }

  /** Every row lands in exactly one bucket: the four lists together are as long as the input. */
  lemma {:induction false} BucketsPartition(rows: seq<Row>, today: int)
    requires forall i :: 0 <= i < |rows| ==> TextDeadline(rows[i])
    ensures |InBucket(rows, today, Overdue)| + |InBucket(rows, today, DueSoon)|
      + |InBucket(rows, today, Upcoming)| + |InBucket(rows, today, NoDeadline)| == |rows|
  {
    if |rows| > 0 {
      BucketsPartition(rows[..|rows| - 1], today);
    }
  }

  /** The "overdue" list is always empty. */
  lemma {:induction false} OverdueAlwaysEmpty(rows: seq<Row>, today: int)
    requires forall i :: 0 <= i < |rows| ==> TextDeadline(rows[i])
    ensures InBucket(rows, today, Overdue) == []
  {
    if |rows| > 0 {
      OverdueAlwaysEmpty(rows[..|rows| - 1], today);
      NeverOverdue(rows[|rows| - 1], today);
    }
  }

  /** The `categorized` dict. */
  datatype Categorized = Categorized(overdue: seq<ItemData>, dueSoon: seq<ItemData>,
                                     upcoming: seq<ItemData>, noDeadline: seq<ItemData>)

  /** The bucketing loop of `get_deadline_status`, with `today` supplied. */
  method Categorize(rows: seq<Row>, today: int) returns (c: Categorized)
    requires forall i :: 0 <= i < |rows| ==> TextDeadline(rows[i])
    ensures c.overdue == InBucket(rows, today, Overdue) == []
    ensures c.dueSoon == InBucket(rows, today, DueSoon)
    ensures c.upcoming == InBucket(rows, today, Upcoming)
    ensures c.noDeadline == InBucket(rows, today, NoDeadline)
    ensures |c.overdue| + |c.dueSoon| + |c.upcoming| + |c.noDeadline| == |rows|
  {
    c := Categorized([], [], [], []);
    var i := 0;
    while i < |rows|
      invariant 0 <= i <= |rows|
      invariant c.overdue == InBucket(rows[..i], today, Overdue)
      invariant c.dueSoon == InBucket(rows[..i], today, DueSoon)
      invariant c.upcoming == InBucket(rows[..i], today, Upcoming)
      invariant c.noDeadline == InBucket(rows[..i], today, NoDeadline)
    {
      var item := rows[i];
      var data := ItemOf(item);
      var deadline := Get(item, "deadline");
      if !Truthy(deadline) {
        assert BucketOf(item, today) == NoDeadline;
        c := c.(noDeadline := c.noDeadline + [data]);
      } else {
        var parsed := ParseDeadline(deadline.s, today);
        if parsed.Some? {
          var daysUntil := parsed.value - today;
          if daysUntil < 0 {
            assert BucketOf(item, today) == Overdue;
            c := c.(overdue := c.overdue + [data]);
          } else if daysUntil <= 2 {
            assert BucketOf(item, today) == DueSoon;
            c := c.(dueSoon := c.dueSoon + [data]);
          } else {
            assert BucketOf(item, today) == Upcoming;
            c := c.(upcoming := c.upcoming + [data]);
          }
        } else {
          assert BucketOf(item, today) == Upcoming;
          c := c.(upcoming := c.upcoming + [data]);
        }
      }
      InBucketStep(rows, i, today, Overdue);
      InBucketStep(rows, i, today, DueSoon);
      InBucketStep(rows, i, today, Upcoming);
      InBucketStep(rows, i, today, NoDeadline);
      i := i + 1;
    }
    assert rows[..i] == rows;
    OverdueAlwaysEmpty(rows, today);
    BucketsPartition(rows, today);
  }

  // ---------------------------------------------------------------------------
  // Meeting comparison

  /** The single row the comparison query returns: both titles and the collected topic names and decisions. */
  datatype ComparisonRow = ComparisonRow(meeting1Title: Value, meeting2Title: Value,
                                         meeting1Topics: seq<string>, meeting2Topics: seq<string>,
                                         meeting1Decisions: seq<string>, meeting2Decisions: seq<string>)

  const MeetingsNotFound := "Meetings not found"

  datatype Comparison =
    | NotFound(error: string)
    | Compared(meeting1: Value, meeting2: Value, commonTopics: set<string>,
               uniqueToMeeting1: set<string>, uniqueToMeeting2: set<string>,
               meeting1Decisions: seq<string>, meeting2Decisions: seq<string>)

  function TopicSet(names: seq<string>): (s: set<string>)
    ensures forall x :: x in s <==> x in names
  {
    set x | x in names
  }

  /**
   * `get_meeting_comparison` on the query's rows: the first row's topics split
   * into those shared and those unique to either meeting.
   */
  function CompareMeetings(rows: seq<ComparisonRow>): (c: Comparison)
    ensures rows == [] <==> c.NotFound?
    ensures c.NotFound? ==> c.error == MeetingsNotFound
    ensures c.Compared? ==>
      var t1 := TopicSet(rows[0].meeting1Topics);
      var t2 := TopicSet(rows[0].meeting2Topics);
      && c.commonTopics + c.uniqueToMeeting1 == t1
      && c.commonTopics + c.uniqueToMeeting2 == t2
      && c.commonTopics !! c.uniqueToMeeting1 && c.commonTopics !! c.uniqueToMeeting2
      && c.uniqueToMeeting1 !! c.uniqueToMeeting2
      && c.meeting1 == rows[0].meeting1Title && c.meeting2 == rows[0].meeting2Title
      && c.meeting1Decisions == rows[0].meeting1Decisions && c.meeting2Decisions == rows[0].meeting2Decisions
  {
    if rows == [] then NotFound(MeetingsNotFound)
    else
      var r := rows[0];
      var t1 := TopicSet(r.meeting1Topics);
      var t2 := TopicSet(r.meeting2Topics);
      Compared(r.meeting1Title, r.meeting2Title, t1 * t2, t1 - t2, t2 - t1,
               r.meeting1Decisions, r.meeting2Decisions)
  }

  /** The three topic sets are determined by the partition: shared topics are exactly those in both meetings. */
  lemma ComparisonCommonIsBoth(rows: seq<ComparisonRow>, x: string)
    requires rows != []
    ensures x in CompareMeetings(rows).commonTopics <==> x in rows[0].meeting1Topics && x in rows[0].meeting2Topics
  {
    var c := CompareMeetings(rows);
    if x in rows[0].meeting1Topics && x in rows[0].meeting2Topics {
      assert x in TopicSet(rows[0].meeting1Topics) && x in TopicSet(rows[0].meeting2Topics);
    }
  }

  // ---------------------------------------------------------------------------
  // Conflict detection input

  const NoDecisions := "No decisions found in the knowledge graph."

  /** One decision line: number, quoted text, then maker, meeting and topic when present. */
  function DecisionLine(i: nat, d: Row): string {
    NatToString(i) + ". \"" + Render(Get(d, "decision")) + "\""
    + (if Truthy(Get(d, "made_by")) then " (by " + Render(Get(d, "made_by")) + ")" else "")
    + (if Truthy(Get(d, "meeting")) then " [Meeting: " + Render(Get(d, "meeting")) + "]" else "")
    + (if Truthy(Get(d, "topic")) then " [Topic: " + Render(Get(d, "topic")) + "]" else "")
  }

  /** The decision lines, numbered from 1 in result order. */
  function DecisionLines(rows: seq<Row>): (lines: seq<string>)
    ensures |lines| == |rows|
    ensures forall i :: 0 <= i < |rows| ==> lines[i] == DecisionLine(i + 1, rows[i])
  {
    if |rows| == 0 then []
    else DecisionLines(rows[..|rows| - 1]) + [DecisionLine(|rows|, rows[|rows| - 1])]
  }

  /** A decision with no maker, meeting or topic is just its number and quoted text. */
  lemma BareDecisionLine(i: nat, d: Row)
    requires !Truthy(Get(d, "made_by")) && !Truthy(Get(d, "meeting")) && !Truthy(Get(d, "topic"))
    ensures DecisionLine(i, d) == NatToString(i) + ". \"" + Render(Get(d, "decision")) + "\""
  {
  }

  /** `detect_conflicts` on the query's rows, with the conflict chain as `conflictLlm`. */
  function DetectConflicts(rows: seq<Row>, conflictLlm: string -> string): (analysis: string)
    ensures rows == [] ==> analysis == NoDecisions
    ensures rows != [] ==> analysis == conflictLlm(Join("\n", DecisionLines(rows)))
  {
    if rows == [] then NoDecisions else conflictLlm(Join("\n", DecisionLines(rows)))
  }

  // ---------------------------------------------------------------------------
  // The agent

  class AnalyzerAgent {
    const client: Client
    var connected: bool

    constructor (client: Client)
      ensures this.client == client && !connected
    {
      this.client := client;
      connected := false;
    }

    method Connect()
      modifies this`connected, client`driver
      ensures connected
      ensures !old(connected) ==> client.driver == client.Session(old(client.driver))
      ensures old(connected) ==> client.driver == old(client.driver)
    {
      if !connected {
        client.Connect();
        connected := true;
      }
    }

    method Close()
      modifies this`connected, client`driver
      ensures !connected
      ensures old(connected) ==> client.driver == None
      ensures !old(connected) ==> client.driver == old(client.driver)
    {
      if connected {
        client.Close();
        connected := false;
      }
    }

    /**
     * `get_deadline_status`: connect when needed, run the action-item query
     * (`query`, a function of the store) and bucket its rows; a failing
     * query propagates its error.
     */
    method GetDeadlineStatus(query: GraphModel.Graph -> Result<seq<Row>>, today: int) returns (r: Result<Categorized>)
      requires query(client.Store()).Ok? ==>
        forall i :: 0 <= i < |query(client.Store()).value| ==> TextDeadline(query(client.Store()).value[i])
      modifies this`connected, client`driver
      ensures connected
      ensures query(old(client.Store())).Raised? ==> r == Raised(query(old(client.Store())).message)
      ensures query(old(client.Store())).Ok? ==> (r.Ok? &&
        var rows := query(old(client.Store())).value;
        && r.value.overdue == []
        && r.value.dueSoon == InBucket(rows, today, DueSoon)
        && r.value.upcoming == InBucket(rows, today, Upcoming)
        && r.value.noDeadline == InBucket(rows, today, NoDeadline))
    {
      ghost var g := client.Store();
      if !connected {
        Connect();
      }
      assert client.Store() == g;
      var result := query(client.Store());
      if result.Raised? {
        r := Raised(result.message);
      } else {
        var c := Categorize(result.value, today);
        r := Ok(c);
      }
    }

    /** `detect_conflicts`, with the decision query and the conflict chain as parameters. */
    method DetectConflictsIn(query: GraphModel.Graph -> Result<seq<Row>>, conflictLlm: string -> string) returns (r: Result<string>)
      modifies this`connected, client`driver
      ensures connected
      ensures query(old(client.Store())).Raised? ==> r == Raised(query(old(client.Store())).message)
      ensures query(old(client.Store())).Ok? ==> r == Ok(DetectConflicts(query(old(client.Store())).value, conflictLlm))
    {
      ghost var g := client.Store();
      if !connected {
        Connect();
      }
      assert client.Store() == g;
      var result := query(client.Store());
      if result.Raised? {
        r := Raised(result.message);
      } else {
        r := Ok(DetectConflicts(result.value, conflictLlm));
      }
    }

    /** `get_meeting_comparison`, with the comparison query (a function of the store and both title fragments). */
    method GetMeetingComparison(meeting1: string, meeting2: string,
                                query: (GraphModel.Graph, string, string) -> Result<seq<ComparisonRow>>)
      returns (r: Result<Comparison>)
      modifies this`connected, client`driver
      ensures connected
      ensures query(old(client.Store()), meeting1, meeting2).Raised? ==>
        r == Raised(query(old(client.Store()), meeting1, meeting2).message)
      ensures query(old(client.Store()), meeting1, meeting2).Ok? ==>
        r == Ok(CompareMeetings(query(old(client.Store()), meeting1, meeting2).value))
    {
      ghost var g := client.Store();
      if !connected {
        Connect();
      }
      assert client.Store() == g;
      var result := query(client.Store(), meeting1, meeting2);
      if result.Raised? {
        r := Raised(result.message);
      } else {
        r := Ok(CompareMeetings(result.value));
      }
    }
  }
}
