/**
 * The records an extraction produces (pydantic models in the source).
 * Optional fields are `Option`s; each `New…` function is the model's
 * constructor called with only its required arguments, so its contract
 * states the declared defaults.
 */
module Entities {
  import opened Wrappers
  import opened Text

  datatype Person = Person(name: string, role: Option<string>)

  datatype Topic = Topic(name: string, description: Option<string>)

  datatype Decision = Decision(description: string, madeBy: Option<string>, relatedTopic: Option<string>)

  datatype ActionItem = ActionItem(
    description: string,
    owner: Option<string>,
    deadline: Option<string>,
    priority: Option<string>)

  /** A commitment always names who made it; the addressee is optional. */
  datatype Commitment = Commitment(description: string, madeBy: string, toWhom: Option<string>)

  datatype MeetingExtraction = MeetingExtraction(
    meetingTitle: string,
    meetingDate: Option<string>,
    people: seq<Person>,
    topics: seq<Topic>,
    decisions: seq<Decision>,
    actionItems: seq<ActionItem>,
    commitments: seq<Commitment>)

  function NewPerson(name: string): (p: Person)
    ensures p.name == name && p.role == None
  {
    Person(name, None)
  }

  function NewTopic(name: string): (t: Topic)
    ensures t.name == name && t.description == None
  {
    Topic(name, None)
  }

  function NewDecision(description: string): (d: Decision)
    ensures d.description == description && d.madeBy == None && d.relatedTopic == None
  {
    Decision(description, None, None)
  }

  function NewActionItem(description: string): (a: ActionItem)
    ensures a.description == description
    ensures a.owner == None && a.deadline == None && a.priority == None
  {
    ActionItem(description, None, None, None)
  }

  function NewCommitment(description: string, madeBy: string): (c: Commitment)
    ensures c.description == description && c.madeBy == madeBy && c.toWhom == None
  {
    Commitment(description, madeBy, None)
  }

  function NewMeetingExtraction(meetingTitle: string): (e: MeetingExtraction)
    ensures e.meetingTitle == meetingTitle && e.meetingDate == None
    ensures e.people == [] && e.topics == [] && e.decisions == []
    ensures e.actionItems == [] && e.commitments == []
  {
    MeetingExtraction(meetingTitle, None, [], [], [], [], [])
  }

  /** The five list lengths, in the order the summary reports them. */
  function Counts(e: MeetingExtraction): seq<nat> {
    [|e.people|, |e.topics|, |e.decisions|, |e.actionItems|, |e.commitments|]
  }

  const CountNouns: seq<string> := ["people", "topics", "decisions", "action items", "commitments"]

  /** One "  - <n> <noun>" line per list, in the fixed order. */
  function CountLines(e: MeetingExtraction): (lines: seq<string>)
    ensures |lines| == 5
    ensures lines[0] == "  - " + NatToString(|e.people|) + " people"
    ensures lines[1] == "  - " + NatToString(|e.topics|) + " topics"
    ensures lines[2] == "  - " + NatToString(|e.decisions|) + " decisions"
    ensures lines[3] == "  - " + NatToString(|e.actionItems|) + " action items"
    ensures lines[4] == "  - " + NatToString(|e.commitments|) + " commitments"
  {
    seq(5, i requires 0 <= i < 5 => "  - " + NatToString(Counts(e)[i]) + " " + CountNouns[i])
  }

  /** The `summary` property: the title line, then the five count lines. */
  function Summary(e: MeetingExtraction): (text: string)
    ensures StartsWith(text, "Meeting: " + e.meetingTitle + "\n")
  {
    "Meeting: " + e.meetingTitle + "\n" + Join("\n", CountLines(e))
  }

  /** The summary is the title line and the five count lines, written out. */
  lemma SummaryText(e: MeetingExtraction)
    ensures Summary(e) == "Meeting: " + e.meetingTitle + "\n"
      + ("  - " + NatToString(|e.people|) + " people") + "\n"
      + ("  - " + NatToString(|e.topics|) + " topics") + "\n"
      + ("  - " + NatToString(|e.decisions|) + " decisions") + "\n"
      + ("  - " + NatToString(|e.actionItems|) + " action items") + "\n"
      + ("  - " + NatToString(|e.commitments|) + " commitments")
  {
    var ls := CountLines(e);
    assert ls == [ls[0], ls[1], ls[2], ls[3], ls[4]];
    JoinFive(ls[0], ls[1], ls[2], ls[3], ls[4]);
  }

  lemma JoinFive(a: string, b: string, c: string, d: string, f: string)
    ensures Join("\n", [a, b, c, d, f]) == a + "\n" + b + "\n" + c + "\n" + d + "\n" + f
  {
    assert Join("\n", [d, f]) == d + "\n" + f by { assert [d, f][1..] == [f]; }
    assert Join("\n", [c, d, f]) == c + "\n" + Join("\n", [d, f]) by { assert [c, d, f][1..] == [d, f]; }
    assert Join("\n", [b, c, d, f]) == b + "\n" + Join("\n", [c, d, f]) by { assert [b, c, d, f][1..] == [c, d, f]; }
    assert Join("\n", [a, b, c, d, f]) == a + "\n" + Join("\n", [b, c, d, f]) by { assert [a, b, c, d, f][1..] == [b, c, d, f]; }
  }

  /** The summary sees only the title and the five lengths, never the entries. */
  lemma SummaryDependsOnlyOnCounts(e1: MeetingExtraction, e2: MeetingExtraction)
    requires e1.meetingTitle == e2.meetingTitle && Counts(e1) == Counts(e2)
    ensures Summary(e1) == Summary(e2)
  {
    assert |e1.people| == Counts(e1)[0] && |e1.topics| == Counts(e1)[1];
    assert |e1.decisions| == Counts(e1)[2] && |e1.actionItems| == Counts(e1)[3];
    assert |e1.commitments| == Counts(e1)[4];
  }
}
