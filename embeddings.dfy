/**
 * The integer bookkeeping of the graph-embedding helpers: how a task
 * description is reduced to keywords, how people are scored and given a
 * reason as task owners, how the similar-people list drops the person
 * asked about, and how nodes are counted per label. The embeddings
 * themselves (random walks, cosine similarity, clustering) are not part of
 * this model; the graph queries are parameters.
 */
module Embeddings {
  import opened Wrappers
  import opened Text

  // ---------------------------------------------------------------------------
  // Keywords

  const StopWords: set<string> := {"the", "a", "an", "and", "or", "but", "in", "on", "at", "to", "for",
                                  "of", "with", "by", "is", "are", "was", "were", "be", "been",
                                  "set", "up", "get", "do", "make", "create", "add", "update", "who", "should"}

  predicate Meaningful(w: string) {
    w !in StopWords && |w| > 2
  }

  /** The meaningful words, in order, each as often as it occurs. */
  function MeaningfulWords(words: seq<string>): (ws: seq<string>)
    ensures forall w :: w in ws <==> w in words && Meaningful(w)
  {
    if |words| == 0 then []
    else
      var last := words[|words| - 1];
      MeaningfulWords(words[..|words| - 1]) + (if Meaningful(last) then [last] else [])
  }

  /** Each meaningful word is kept as often as it occurs, every other word never. */
  lemma {:induction false} MeaningfulWordsCount(words: seq<string>, w: string)
    ensures multiset(MeaningfulWords(words))[w] == if Meaningful(w) then multiset(words)[w] else 0
  {
    if |words| > 0 {
      var front := words[..|words| - 1];
      var last := words[|words| - 1];
      assert words == front + [last];
      MeaningfulWordsCount(front, w);
    }
  }

  /** The filter keeps text order: the words of `a + b` are those of `a`, then those of `b`. */
  lemma {:induction false} MeaningfulWordsAppend(a: seq<string>, b: seq<string>)
    ensures MeaningfulWords(a + b) == MeaningfulWords(a) + MeaningfulWords(b)
    decreases |b|
  {
    if b == [] {
      assert a + b == a;
    } else {
      var front, last := b[..|b| - 1], b[|b| - 1];
      var kept := if Meaningful(last) then [last] else [];
      var ma, mf := MeaningfulWords(a), MeaningfulWords(front);
      assert (a + b)[..|a + b| - 1] == a + front && (a + b)[|a + b| - 1] == last;
      MeaningfulWordsAppend(a, front);
      assert ma + mf + kept == ma + (mf + kept);
    }
  }

  /** The first five meaningful words of the lower-cased description, or else its first three words. */
  function Keywords(description: string): (ks: seq<string>)
    ensures |ks| <= 5
    ensures forall k :: k in ks ==> k in Words(Lower(description))
    ensures MeaningfulWords(Words(Lower(description))) != [] ==> forall k :: k in ks ==> Meaningful(k)
    ensures MeaningfulWords(Words(Lower(description))) != [] ==> ks == Take(MeaningfulWords(Words(Lower(description))), 5)
    ensures ks == [] <==> Words(Lower(description)) == []
    ensures MeaningfulWords(Words(Lower(description))) == [] ==> ks == Take(Words(Lower(description)), 3)
  {
    var words := Words(Lower(description));
    var kept := Take(MeaningfulWords(words), 5);
    if kept != [] then kept else Take(words, 3)
  }

  // ---------------------------------------------------------------------------
  // Scoring

  /** Which query a result row came from: a role match, an owned action item, or a discussed topic. */
  datatype Kind = RoleMatch | TaskMatch | TopicMatch

  function Weight(k: Kind): nat {
    match k
    case RoleMatch => 5
    case TaskMatch => 2
    case TopicMatch => 1
  }

  /**
   * `person_scores` (with its insertion order), `person_roles`,
   * `person_tasks` and `person_topics` while the keyword loop runs.
   */
  datatype Tally = Tally(order: seq<string>, scores: map<string, int>, roles: map<string, string>,
                         tasks: map<string, seq<string>>, topics: map<string, set<string>>)

  const NoTally := Tally([], map[], map[], map[], map[])

  function ScoreOf(t: Tally, p: string): int {
    if p in t.scores then t.scores[p] else 0
  }

  function TasksOf(t: Tally, p: string): seq<string> {
    if p in t.tasks then t.tasks[p] else []
  }

  function TopicsOf(t: Tally, p: string): set<string> {
    if p in t.topics then t.topics[p] else {}
  }

  /** `person_scores[p] += w`, a new person joining the end of the order. */
  function Bump(t: Tally, p: string, w: int): Tally {
    t.(order := if p in t.scores then t.order else t.order + [p], scores := t.scores[p := ScoreOf(t, p) + w])
  }

  /** One result row `(person, value)` of the given kind. */
  function Hit(t: Tally, k: Kind, row: (string, string)): Tally {
    var (p, v) := row;
    match k
    case RoleMatch => Bump(t, p, 5).(roles := t.roles[p := v])
    case TaskMatch =>
      var ts := TasksOf(t, p);
      Bump(t, p, 2).(tasks := t.tasks[p := if v in ts then ts else ts + [v]])
    case TopicMatch => Bump(t, p, 1).(topics := t.topics[p := TopicsOf(t, p) + {v}])
  }

  function Hits(t: Tally, k: Kind, rows: seq<(string, string)>): Tally {
    if |rows| == 0 then t else Hit(Hits(t, k, rows[..|rows| - 1]), k, rows[|rows| - 1])
  }

  /** The three searches for one keyword, in the order the loop runs them. */
  function KeywordHits(t: Tally, keyword: string, roleRows: string -> seq<(string, string)>,
                       taskRows: string -> seq<(string, string)>, topicRows: string -> seq<(string, string)>): Tally {
    Hits(Hits(Hits(t, RoleMatch, roleRows(keyword)), TaskMatch, taskRows(keyword)), TopicMatch, topicRows(keyword))
  }

  function TallyOf(keywords: seq<string>, roleRows: string -> seq<(string, string)>,
                   taskRows: string -> seq<(string, string)>, topicRows: string -> seq<(string, string)>): Tally {
    if |keywords| == 0 then NoTally
    else KeywordHits(TallyOf(keywords[..|keywords| - 1], roleRows, taskRows, topicRows), keywords[|keywords| - 1], roleRows, taskRows, topicRows)
  }

  /** How many rows name person `p`. */
  function Mentions(rows: seq<(string, string)>, p: string): nat {
    if |rows| == 0 then 0 else Mentions(rows[..|rows| - 1], p) + (if rows[|rows| - 1].0 == p then 1 else 0)
  }

  /** The credit for `n` rows of one kind, without multiplying by a symbolic weight. */
  function Credit(k: Kind, n: nat): int {
    match k
    case RoleMatch => 5 * n
    case TaskMatch => 2 * n
    case TopicMatch => n
  }

  lemma {:induction false} HitsScore(t: Tally, k: Kind, rows: seq<(string, string)>, p: string)
    ensures ScoreOf(Hits(t, k, rows), p) == ScoreOf(t, p) + Credit(k, Mentions(rows, p))
  {
    if |rows| > 0 {
      HitsScore(t, k, rows[..|rows| - 1], p);
    }
  }

  /** What a person earns over all keywords: 5 per role match, 2 per owned action, 1 per discussed topic. */
  function ExpectedScore(keywords: seq<string>, p: string, roleRows: string -> seq<(string, string)>,
                         taskRows: string -> seq<(string, string)>, topicRows: string -> seq<(string, string)>): int {
    if |keywords| == 0 then 0
    else
      var k := keywords[|keywords| - 1];
      ExpectedScore(keywords[..|keywords| - 1], p, roleRows, taskRows, topicRows)
        + 5 * Mentions(roleRows(k), p) + 2 * Mentions(taskRows(k), p) + Mentions(topicRows(k), p)
  }

  /** A person's accumulated score is the weighted count of the rows that name them. */
  lemma {:induction false} TallyScore(keywords: seq<string>, p: string, roleRows: string -> seq<(string, string)>,
                                      taskRows: string -> seq<(string, string)>, topicRows: string -> seq<(string, string)>)
    ensures ScoreOf(TallyOf(keywords, roleRows, taskRows, topicRows), p) == ExpectedScore(keywords, p, roleRows, taskRows, topicRows)
  {
    if |keywords| > 0 {
      var front := keywords[..|keywords| - 1];
      var k := keywords[|keywords| - 1];
      var t := TallyOf(front, roleRows, taskRows, topicRows);
      TallyScore(front, p, roleRows, taskRows, topicRows);
      KeywordScore(t, k, p, roleRows, taskRows, topicRows);
    }
  }

  /** One keyword adds 5 per role row, 2 per action row and 1 per topic row naming the person. */
  lemma KeywordScore(t: Tally, k: string, p: string, roleRows: string -> seq<(string, string)>,
                     taskRows: string -> seq<(string, string)>, topicRows: string -> seq<(string, string)>)
    ensures ScoreOf(KeywordHits(t, k, roleRows, taskRows, topicRows), p)
      == ScoreOf(t, p) + 5 * Mentions(roleRows(k), p) + 2 * Mentions(taskRows(k), p) + Mentions(topicRows(k), p)
  {
    var r1, r2, r3 := roleRows(k), taskRows(k), topicRows(k);
    var t1 := Hits(t, RoleMatch, r1);
    var t2 := Hits(t1, TaskMatch, r2);
    assert KeywordHits(t, k, roleRows, taskRows, topicRows) == Hits(t2, TopicMatch, r3);
    HitsScore(t, RoleMatch, r1, p);
    HitsScore(t1, TaskMatch, r2, p);
    HitsScore(t2, TopicMatch, r3, p);
  }

  /** A scored person has a role, an owned task or a topic to show as the reason. */
  predicate Backed(t: Tally, p: string) {
    p in t.roles || TasksOf(t, p) != [] || TopicsOf(t, p) != {}
  }

  /** The order lists each scored person exactly once. */
  ghost predicate Ordered(t: Tally) {
    && (forall p :: p in t.scores <==> p in t.order)
    && (forall i, j :: 0 <= i < j < |t.order| ==> t.order[i] != t.order[j])
  }

  /**
   * The tally's invariant: the order lists each scored person once, every
   * score is positive and backed by a reason, and no task is listed twice.
   */
  ghost predicate Consistent(t: Tally) {
    && Ordered(t)
    && (forall p :: p in t.scores ==> t.scores[p] > 0 && Backed(t, p))
    && (forall p :: p in t.tasks ==> Unique(t.tasks[p]))
  }

  predicate Unique(s: seq<string>) {
    forall i, j :: 0 <= i < j < |s| ==> s[i] != s[j]
  }

  lemma BumpOrdered(t: Tally, p: string, w: int)
    requires Ordered(t)
    ensures Ordered(Bump(t, p, w))
  {
  }

  /** The rows of one kind credit only their own person, and back that person's score. */
  lemma HitFrame(t: Tally, k: Kind, row: (string, string))
    ensures var u := Hit(t, k, row);
      && u.order == Bump(t, row.0, Weight(k)).order && u.scores == Bump(t, row.0, Weight(k)).scores
      && (forall q :: q != row.0 ==> (q in t.roles <==> q in u.roles) && TasksOf(u, q) == TasksOf(t, q) && TopicsOf(u, q) == TopicsOf(t, q))
      && Backed(u, row.0) && (Backed(t, row.0) ==> Backed(u, row.0))
      && (Unique(TasksOf(t, row.0)) ==> Unique(TasksOf(u, row.0)))
  {
    var (p, v) := row;
    var u := Hit(t, k, row);
    match k
    case RoleMatch =>
    case TaskMatch =>
      var ts := TasksOf(t, p);
      assert TasksOf(u, p) == if v in ts then ts else ts + [v];
      if v in ts {
        assert ts != [];
      }
    case TopicMatch =>
      assert v in TopicsOf(u, p);
  }

  lemma HitKeeps(t: Tally, k: Kind, row: (string, string))
    requires Consistent(t)
    ensures Consistent(Hit(t, k, row))
  {
    var p := row.0;
    var u := Hit(t, k, row);
    BumpOrdered(t, p, Weight(k));
    HitFrame(t, k, row);
    assert Ordered(u);
    forall q | q in u.scores
      ensures u.scores[q] > 0 && Backed(u, q)
    {
      if q != p {
        assert Backed(t, q);
      }
    }
    forall q | q in u.tasks
      ensures Unique(u.tasks[q])
    {
      assert Unique(TasksOf(t, q));
      assert u.tasks[q] == TasksOf(u, q);
    }
  }

  lemma {:induction false} HitsKeep(t: Tally, k: Kind, rows: seq<(string, string)>)
    requires Consistent(t)
    ensures Consistent(Hits(t, k, rows))
  {
    if |rows| > 0 {
      HitsKeep(t, k, rows[..|rows| - 1]);
      HitKeeps(Hits(t, k, rows[..|rows| - 1]), k, rows[|rows| - 1]);
    }
  }

  lemma {:induction false} TallyConsistent(keywords: seq<string>, roleRows: string -> seq<(string, string)>,
                                           taskRows: string -> seq<(string, string)>, topicRows: string -> seq<(string, string)>)
    ensures Consistent(TallyOf(keywords, roleRows, taskRows, topicRows))
  {
    if |keywords| > 0 {
      var k := keywords[|keywords| - 1];
      var t := TallyOf(keywords[..|keywords| - 1], roleRows, taskRows, topicRows);
      TallyConsistent(keywords[..|keywords| - 1], roleRows, taskRows, topicRows);
      HitsKeep(t, RoleMatch, roleRows(k));
      HitsKeep(Hits(t, RoleMatch, roleRows(k)), TaskMatch, taskRows(k));
      HitsKeep(Hits(Hits(t, RoleMatch, roleRows(k)), TaskMatch, taskRows(k)), TopicMatch, topicRows(k));
    }
  }

  // ---------------------------------------------------------------------------
  // Suggestions

  /** `(person, score, reason)`; the score is kept as the integer total, before dividing by the maximum. */
  datatype Suggestion = Suggestion(person: string, score: int, reason: string)

  const Inactive := "Active team member"

  /**
   * The reason shown for a person, by priority: role, then the first owned
   * task cut to 40 characters, then up to two topics in the set's iteration
   * order `setOrder`, then the generic text.
   */
  function Reason(t: Tally, p: string, setOrder: set<string> -> seq<string>): (reason: string)
    requires Enumerates(setOrder)
    ensures p in t.roles ==> reason == "Role: " + t.roles[p]
    ensures p !in t.roles && TasksOf(t, p) != [] ==>
      var cut := Take(TasksOf(t, p)[0], 40);
      && reason == "Owns similar: " + cut + "..."
      && |cut| <= 40 && cut == TasksOf(t, p)[0][..|cut|]
    ensures p !in t.roles && TasksOf(t, p) == [] && TopicsOf(t, p) != {} ==>
      var shown := Take(setOrder(TopicsOf(t, p)), 2);
      && reason == "Works on: " + Join(", ", shown)
      && |shown| == (if |TopicsOf(t, p)| < 2 then |TopicsOf(t, p)| else 2)
      && (forall x :: x in shown ==> x in TopicsOf(t, p))
  {
    if p in t.roles then "Role: " + t.roles[p]
    else if TasksOf(t, p) != [] then "Owns similar: " + Take(TasksOf(t, p)[0], 40) + "..."
    else if TopicsOf(t, p) != {} then "Works on: " + Join(", ", Take(setOrder(TopicsOf(t, p)), 2))
    else Inactive
  }

  /** Every scored person has a concrete reason: the generic text is never reached. */
  lemma ReasonNeverGeneric(t: Tally, p: string, setOrder: set<string> -> seq<string>)
    requires Enumerates(setOrder)
    requires Consistent(t) && p in t.scores
    ensures Reason(t, p, setOrder) != Inactive
  {
    var r := Reason(t, p, setOrder);
    assert r[0] != Inactive[0];
  }

  function SuggestionsFor(t: Tally, people: seq<string>, setOrder: set<string> -> seq<string>): (s: seq<Suggestion>)
    requires Enumerates(setOrder)
    ensures |s| == |people|
    ensures forall i :: 0 <= i < |s| ==> s[i].person == people[i]
  {
    if |people| == 0 then []
    else
      var p := people[|people| - 1];
      SuggestionsFor(t, people[..|people| - 1], setOrder) + [Suggestion(p, ScoreOf(t, p), Reason(t, p, setOrder))]
  }

  /** Places `x` before the first element whose score is not higher, so earlier equals stay first. */
  function Insert(x: Suggestion, ys: seq<Suggestion>): (zs: seq<Suggestion>)
    ensures multiset(zs) == multiset(ys) + multiset{x}
  {
    if ys == [] || ys[0].score <= x.score then [x] + ys
    else
      assert ys == [ys[0]] + ys[1..];
      [ys[0]] + Insert(x, ys[1..])
  }

  /** `sort(key=score, reverse=True)`: a stable sort, highest score first. */
  function SortByScore(s: seq<Suggestion>): (r: seq<Suggestion>)
    ensures multiset(r) == multiset(s)
  {
    if s == [] then []
    else
      assert s == [s[0]] + s[1..];
      Insert(s[0], SortByScore(s[1..]))
  }

  ghost predicate Descending(s: seq<Suggestion>) {
    forall i, j :: 0 <= i < j < |s| ==> s[i].score >= s[j].score
  }

  lemma {:induction false} InsertDescending(x: Suggestion, ys: seq<Suggestion>)
    requires Descending(ys)
    ensures Descending(Insert(x, ys))
  {
    if ys != [] && ys[0].score > x.score {
      var zs := Insert(x, ys[1..]);
      InsertDescending(x, ys[1..]);
      var all := [ys[0]] + zs;
      assert Insert(x, ys) == all;
      forall i, j | 0 <= i < j < |all|
        ensures all[i].score >= all[j].score
      {
        if i == 0 {
          var z := zs[j - 1];
          assert z in multiset(zs);
          if z != x {
            assert z in ys[1..];
            var m :| 0 <= m < |ys[1..]| && ys[1..][m] == z;
            assert ys[m + 1] == z;
          }
        } else {
          assert all[i] == zs[i - 1] && all[j] == zs[j - 1];
        }
      }
    }
  }

  lemma {:induction false} SortDescending(s: seq<Suggestion>)
    ensures Descending(SortByScore(s))
  {
    if s != [] {
      SortDescending(s[1..]);
      InsertDescending(s[0], SortByScore(s[1..]));
    }
  }

  /** The entries scoring exactly `v`, in their order. */
  function Tied(s: seq<Suggestion>, v: int): seq<Suggestion> {
    if s == [] then [] else (if s[0].score == v then [s[0]] else []) + Tied(s[1..], v)
  }

  /** Inserting places `x` after every entry that outscores it and before any it ties with. */
  lemma {:induction false} InsertTied(x: Suggestion, ys: seq<Suggestion>, v: int)
    ensures Tied(Insert(x, ys), v) == (if x.score == v then [x] else []) + Tied(ys, v)
  {
    if ys == [] || ys[0].score <= x.score {
      assert ([x] + ys)[1..] == ys;
    } else {
      var rest := Insert(x, ys[1..]);
      assert ([ys[0]] + rest)[1..] == rest;
      InsertTied(x, ys[1..], v);
    }
  }

  /** The sort is stable: entries with equal scores keep their input order. */
  lemma {:induction false} SortStable(s: seq<Suggestion>, v: int)
    ensures Tied(SortByScore(s), v) == Tied(s, v)
  {
    if s != [] {
      SortStable(s[1..], v);
      InsertTied(s[0], SortByScore(s[1..]), v);
    }
  }

  /** The fallback row: a person and how many action items they own. */
  datatype Contributor = Contributor(person: string, taskCount: int)

  function FallbackSuggestions(rows: seq<Contributor>): (s: seq<Suggestion>)
    ensures |s| == |rows|
  {
    if |rows| == 0 then []
    else
      var r := rows[|rows| - 1];
      FallbackSuggestions(rows[..|rows| - 1])
        + [Suggestion(r.person, r.taskCount, "Active contributor with " + IntToString(r.taskCount) + " tasks")]
  }

  /** The whole of `suggest_task_owner` as a value. */
  function Suggest(description: string, roleRows: string -> seq<(string, string)>, taskRows: string -> seq<(string, string)>,
                   topicRows: string -> seq<(string, string)>, fallback: seq<Contributor>,
                   setOrder: set<string> -> seq<string>): seq<Suggestion>
    requires Enumerates(setOrder)
  {
    var t := TallyOf(Keywords(description), roleRows, taskRows, topicRows);
    if t.scores == map[] then FallbackSuggestions(Take(fallback, 3))
    else Take(SortByScore(SuggestionsFor(t, t.order, setOrder)), 3)
  }

  /** The inner loop over one query's result rows. */
  method AddHits(t: Tally, k: Kind, rows: seq<(string, string)>) returns (u: Tally)
    ensures u == Hits(t, k, rows)
  {
    u := t;
    var i := 0;
    while i < |rows|
      invariant 0 <= i <= |rows| && u == Hits(t, k, rows[..i])
    {
      var (p, v) := rows[i];
      var score := ScoreOf(u, p);
      if p !in u.scores {
        u := u.(order := u.order + [p]);
      }
      u := u.(scores := u.scores[p := score + Weight(k)]);
      match k {
        case RoleMatch =>
          u := u.(roles := u.roles[p := v]);
        case TaskMatch =>
          var ts := TasksOf(u, p);
          if v !in ts {
            ts := ts + [v];
          }
          u := u.(tasks := u.tasks[p := ts]);
        case TopicMatch =>
          u := u.(topics := u.topics[p := TopicsOf(u, p) + {v}]);
      }
      assert rows[..i + 1][..i] == rows[..i];
      i := i + 1;
    }
    assert rows[..i] == rows;
  }

  /** The loop over `person_scores.items()` that builds the unsorted suggestions. */
  method BuildSuggestions(t: Tally, setOrder: set<string> -> seq<string>) returns (s: seq<Suggestion>)
    requires Enumerates(setOrder)
    ensures s == SuggestionsFor(t, t.order, setOrder)
  {
    s := [];
    var i := 0;
    while i < |t.order|
      invariant 0 <= i <= |t.order| && s == SuggestionsFor(t, t.order[..i], setOrder)
    {
      var p := t.order[i];
      s := s + [Suggestion(p, ScoreOf(t, p), Reason(t, p, setOrder))];
      assert t.order[..i + 1][..i] == t.order[..i];
      i := i + 1;
    }
    assert t.order[..i] == t.order;
  }

  /** The keyword loop of `suggest_task_owner`, running the three searches for each keyword. */
  method TallyKeywords(keywords: seq<string>, roleRows: string -> seq<(string, string)>,
                       taskRows: string -> seq<(string, string)>, topicRows: string -> seq<(string, string)>)
    returns (t: Tally)
    ensures t == TallyOf(keywords, roleRows, taskRows, topicRows)
  {
    t := NoTally;
    var i := 0;
    while i < |keywords|
      invariant 0 <= i <= |keywords| && t == TallyOf(keywords[..i], roleRows, taskRows, topicRows)
    {
      var k := keywords[i];
      t := AddHits(t, RoleMatch, roleRows(k));
      t := AddHits(t, TaskMatch, taskRows(k));
      t := AddHits(t, TopicMatch, topicRows(k));
      assert keywords[..i + 1][..i] == keywords[..i];
      i := i + 1;
    }
    assert keywords[..i] == keywords;
  }

  /**
   * `suggest_task_owner`: the keyword loop with its three searches, then
   * either the fallback of the most active owners or the three best-scored
   * people.
   */
  method SuggestTaskOwner(description: string, roleRows: string -> seq<(string, string)>,
                          taskRows: string -> seq<(string, string)>, topicRows: string -> seq<(string, string)>,
                          fallback: seq<Contributor>, setOrder: set<string> -> seq<string>)
    returns (r: seq<Suggestion>)
    requires Enumerates(setOrder)
    ensures r == Suggest(description, roleRows, taskRows, topicRows, fallback, setOrder)
  {
    var keywords := Keywords(description);
    var t := TallyKeywords(keywords, roleRows, taskRows, topicRows);
    if t.scores == map[] {
      r := FallbackSuggestions(Take(fallback, 3));
    } else {
      var s := BuildSuggestions(t, setOrder);
      r := Take(SortByScore(s), 3);
    }
  }

  /**
   * With any score at all: at most three people, highest first, each scored
   * person appearing at most once, every one with a concrete reason, and no
   * one left out scoring above anyone kept.
   */
  lemma SuggestRanks(description: string, roleRows: string -> seq<(string, string)>, taskRows: string -> seq<(string, string)>,
                     topicRows: string -> seq<(string, string)>, fallback: seq<Contributor>, setOrder: set<string> -> seq<string>)
    requires Enumerates(setOrder)
    requires TallyOf(Keywords(description), roleRows, taskRows, topicRows).scores != map[]
    ensures var t := TallyOf(Keywords(description), roleRows, taskRows, topicRows);
      var r := Suggest(description, roleRows, taskRows, topicRows, fallback, setOrder);
      var all := SuggestionsFor(t, t.order, setOrder);
      && |r| <= 3 && Descending(r)
      && (forall x :: x in r ==> x in all && x.person in t.scores && x.reason != Inactive)
      && (forall x, y :: x in all && y in r && multiset(r)[x] < multiset(all)[x] ==> y.score >= x.score)
  {
    var t := TallyOf(Keywords(description), roleRows, taskRows, topicRows);
    var all := SuggestionsFor(t, t.order, setOrder);
    TallyConsistent(Keywords(description), roleRows, taskRows, topicRows);
    TopThree(all);
    AllBacked(t, setOrder);
  }

  /** Every suggestion built from a consistent tally names a scored person with a concrete reason. */
  lemma AllBacked(t: Tally, setOrder: set<string> -> seq<string>)
    requires Enumerates(setOrder)
    requires Consistent(t)
    ensures forall x :: x in SuggestionsFor(t, t.order, setOrder) ==> x.person in t.scores && x.reason != Inactive
  {
    BackedFor(t, t.order, setOrder);
  }

  lemma {:induction false} BackedFor(t: Tally, people: seq<string>, setOrder: set<string> -> seq<string>)
    requires Enumerates(setOrder)
    requires Consistent(t) && forall p :: p in people ==> p in t.scores
    ensures forall x :: x in SuggestionsFor(t, people, setOrder) ==> x.person in t.scores && x.reason != Inactive
  {
    if |people| > 0 {
      var front := people[..|people| - 1];
      var p := people[|people| - 1];
      assert forall q :: q in front ==> q in people;
      BackedFor(t, front, setOrder);
      ReasonNeverGeneric(t, p, setOrder);
      assert SuggestionsFor(t, people, setOrder) == SuggestionsFor(t, front, setOrder) + [Suggestion(p, ScoreOf(t, p), Reason(t, p, setOrder))];
    }
  }

  /** The three kept after sorting come highest first, and no one dropped outscores anyone kept. */
  lemma TopThree(all: seq<Suggestion>)
    ensures var r := Take(SortByScore(all), 3);
      && |r| <= 3 && Descending(r)
      && (forall x :: x in r ==> x in all)
      && (forall x, y :: x in all && y in r && multiset(r)[x] < multiset(all)[x] ==> y.score >= x.score)
  {
    var sorted := SortByScore(all);
    SortDescending(all);
    PrefixBest(sorted, all, |Take(sorted, 3)|);
  }

  /** In a descending permutation of `all`, a prefix holds only elements of `all` and outscores the rest. */
  lemma PrefixBest(sorted: seq<Suggestion>, all: seq<Suggestion>, n: nat)
    requires Descending(sorted) && multiset(sorted) == multiset(all) && n <= |sorted|
    ensures var r := sorted[..n];
      && Descending(r)
      && (forall x :: x in r ==> x in all)
      && (forall x, y :: x in all && y in r && multiset(r)[x] < multiset(all)[x] ==> y.score >= x.score)
  {
    PrefixFrom(sorted, all, n);
    PrefixOutscores(sorted, all, n);
  }

  lemma PrefixFrom(sorted: seq<Suggestion>, all: seq<Suggestion>, n: nat)
    requires multiset(sorted) == multiset(all) && n <= |sorted|
    ensures forall x :: x in sorted[..n] ==> x in all
  {
    forall x | x in sorted[..n]
      ensures x in all
    {
      assert x in sorted;
      assert x in multiset(sorted);
    }
  }

  lemma PrefixOutscores(sorted: seq<Suggestion>, all: seq<Suggestion>, n: nat)
    requires Descending(sorted) && multiset(sorted) == multiset(all) && n <= |sorted|
    ensures forall x, y :: x in all && y in sorted[..n] && multiset(sorted[..n])[x] < multiset(all)[x] ==> y.score >= x.score
  {
    var r := sorted[..n];
    var rest := sorted[n..];
    assert sorted == r + rest;
    assert multiset(all) == multiset(r) + multiset(rest);
    forall x, y | x in all && y in r && multiset(r)[x] < multiset(all)[x]
      ensures y.score >= x.score
    {
      assert x in multiset(rest);
      var j :| 0 <= j < |rest| && rest[j] == x;
      var i :| 0 <= i < |r| && r[i] == y;
      assert sorted[i] == y && sorted[n + j] == x;
    }
  }

  /** Without any score, the answer is the fallback's first three contributors. */
  lemma SuggestFallback(description: string, roleRows: string -> seq<(string, string)>, taskRows: string -> seq<(string, string)>,
                        topicRows: string -> seq<(string, string)>, fallback: seq<Contributor>, setOrder: set<string> -> seq<string>)
    requires Enumerates(setOrder)
    requires TallyOf(Keywords(description), roleRows, taskRows, topicRows).scores == map[]
    ensures var r := Suggest(description, roleRows, taskRows, topicRows, fallback, setOrder);
      |r| <= 3 && |r| <= |fallback| && forall i :: 0 <= i < |r| ==> r[i].person == fallback[i].person
  {
    var rows := Take(fallback, 3);
    FallbackPeople(rows);
  }

  lemma {:induction false} FallbackPeople(rows: seq<Contributor>)
    ensures forall i :: 0 <= i < |rows| ==> FallbackSuggestions(rows)[i].person == rows[i].person
  {
    if |rows| > 0 {
      FallbackPeople(rows[..|rows| - 1]);
    }
  }

  // ---------------------------------------------------------------------------
  // Similar people and statistics

  /**
   * `find_similar_people` after the lookup: the `(name, similarity)` pairs
   * whose name differs from the query ignoring case, at most `topK` of
   * them. A failed lookup gives nothing.
   */
  function SimilarPeople(found: bool, similar: seq<(string, real)>, personName: string, topK: nat): (r: seq<(string, real)>)
    ensures |r| <= topK
    ensures !found ==> r == []
    ensures forall x :: x in r ==> x in similar && Lower(x.0) != Lower(personName)
    ensures found ==> |r| == Min(topK, |Others(similar, personName)|) && r == Others(similar, personName)[..|r|]
    ensures found && |r| < topK ==> forall x :: x in similar && Lower(x.0) != Lower(personName) ==> x in r
  {
    if found then Take(Others(similar, personName), topK) else []
  }

  function Min(a: nat, b: nat): nat {
    if a <= b then a else b
  }

  /** The pairs whose name differs from `personName` ignoring case, in their order. */
  function Others(similar: seq<(string, real)>, personName: string): (r: seq<(string, real)>)
    ensures forall x :: x in r <==> x in similar && Lower(x.0) != Lower(personName)
  {
    if |similar| == 0 then []
    else
      var last := similar[|similar| - 1];
      Others(similar[..|similar| - 1], personName) + (if Lower(last.0) != Lower(personName) then [last] else [])
  }

  /** The filter keeps the order of `similar`: the kept pairs of `a + b` are those of `a`, then those of `b`. */
  lemma {:induction false} OthersAppend(a: seq<(string, real)>, b: seq<(string, real)>, personName: string)
    ensures Others(a + b, personName) == Others(a, personName) + Others(b, personName)
    decreases |b|
  {
    if b == [] {
      assert a + b == a;
    } else {
      var front, last := b[..|b| - 1], b[|b| - 1];
      var kept := if Lower(last.0) != Lower(personName) then [last] else [];
      var oa, of := Others(a, personName), Others(front, personName);
      assert (a + b)[..|a + b| - 1] == a + front && (a + b)[|a + b| - 1] == last;
      OthersAppend(a, front, personName);
      assert oa + of + kept == oa + (of + kept);
    }
  }

  /** Each pair of another person is kept as many times as it occurs, the person's own never. */
  lemma {:induction false} OthersCount(similar: seq<(string, real)>, personName: string, x: (string, real))
    ensures multiset(Others(similar, personName))[x] == if Lower(x.0) != Lower(personName) then multiset(similar)[x] else 0
  {
    if |similar| > 0 {
      var front := similar[..|similar| - 1];
      assert similar == front + [similar[|similar| - 1]];
      OthersCount(front, personName, x);
    }
  }

  /** How many entries of `labels` equal `l`. */
  function Count(labels: seq<string>, l: string): nat {
    if |labels| == 0 then 0 else Count(labels[..|labels| - 1], l) + (if labels[|labels| - 1] == l then 1 else 0)
  }

  /** `node_types` of `get_stats`: each label present mapped to its number of nodes. */
  function NodeTypes(labels: seq<string>): (m: map<string, nat>)
    ensures forall l :: l in m <==> l in labels
  {
    map l | l in labels :: Count(labels, l)
  }

  /** The labels without repetition, in order of first appearance. */
  function Distinct(labels: seq<string>): (d: seq<string>)
    ensures forall l :: l in d <==> l in labels
    ensures forall i, j :: 0 <= i < j < |d| ==> d[i] != d[j]
  {
    if |labels| == 0 then []
    else
      var last := labels[|labels| - 1];
      var d := Distinct(labels[..|labels| - 1]);
      if last in d then d else d + [last]
  }

  function SumCounts(ls: seq<string>, labels: seq<string>): nat {
    if |ls| == 0 then 0 else SumCounts(ls[..|ls| - 1], labels) + Count(labels, ls[|ls| - 1])
  }

  lemma {:induction false} CountAbsent(labels: seq<string>, l: string)
    requires l !in labels
    ensures Count(labels, l) == 0
  {
    if |labels| > 0 {
      CountAbsent(labels[..|labels| - 1], l);
    }
  }

  /** Appending `x` raises the sum by one when `x` is listed once in `ls`, and leaves it otherwise. */
  lemma {:induction false} SumCountsAppend(ls: seq<string>, labels: seq<string>, x: string)
    requires forall i, j :: 0 <= i < j < |ls| ==> ls[i] != ls[j]
    ensures SumCounts(ls, labels + [x]) == SumCounts(ls, labels) + (if x in ls then 1 else 0)
  {
    if |ls| > 0 {
      var front := ls[..|ls| - 1];
      SumCountsAppend(front, labels, x);
      assert (labels + [x])[..|labels|] == labels;
      if x in front {
        var i :| 0 <= i < |front| && front[i] == x;
        assert ls[i] == x;
      }
    }
  }

  /** The per-label counts add up to the number of labelled nodes. */
  lemma {:induction false} NodeTypesTotal(labels: seq<string>)
    ensures SumCounts(Distinct(labels), labels) == |labels|
    ensures forall l :: l in NodeTypes(labels) ==> NodeTypes(labels)[l] >= 1
  {
    if |labels| > 0 {
      var front := labels[..|labels| - 1];
      var x := labels[|labels| - 1];
      var d := Distinct(front);
      NodeTypesTotal(front);
      assert labels == front + [x];
      SumCountsAppend(d, front, x);
      if x !in d {
        CountAbsent(front, x);
      }
    }
    forall l | l in NodeTypes(labels)
      ensures NodeTypes(labels)[l] >= 1
    {
      CountPresent(labels, l);
    }
  }

  lemma {:induction false} CountPresent(labels: seq<string>, l: string)
    requires l in labels
    ensures Count(labels, l) >= 1
  {
    if labels[|labels| - 1] != l {
      var i :| 0 <= i < |labels| && labels[i] == l;
      assert labels[..|labels| - 1][i] == l;
      CountPresent(labels[..|labels| - 1], l);
    }
  }
}
