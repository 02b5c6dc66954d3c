/** Citation labels (`src/context/search.py`, `answer_generator.py`): printing, reading and resolving them. */
module Citations {
  import opened Text
  import opened Evidence

  // ---------------------------------------------------------------- labels

  predicate IsDigit(c: char) {
    '0' as int <= c as int <= '9' as int
  }

  function Dec(n: nat): (s: string)
    ensures |s| > 0 && forall c | c in s :: IsDigit(c)
  {
    if n < 10 then [('0' as int + n) as char] else Dec(n / 10) + [('0' as int + n % 10) as char]
  }

  function Digit(c: char): nat
    requires IsDigit(c)
  {
    c as int - '0' as int
  }

  /** `int` of a run of digits. */
  function Number(s: string): nat
    requires forall c | c in s :: IsDigit(c)
  {
    if s == "" then 0
    else
      assert s[|s| - 1] in s;
      10 * Number(s[..|s| - 1]) + Digit(s[|s| - 1])
  }

  function DigitsEnd(t: string, i: nat): (j: nat)
    requires i <= |t|
    ensures i <= j <= |t|
    ensures forall x | i <= x < j :: IsDigit(t[x])
    ensures j < |t| ==> !IsDigit(t[j])
    decreases |t| - i
  {
    if i < |t| && IsDigit(t[i]) then DigitsEnd(t, i + 1) else i
  }

  datatype Label = Label(round: nat, query: nat, doc: nat)

  /** `citation_key`. */
  function Key(l: Label): string {
    "R" + Dec(l.round) + "Q" + Dec(l.query) + "D" + Dec(l.doc)
  }

  function Marker(l: Label): string {
    "[" + Key(l) + "]"
  }

  /** A number after a given opening text, and the index after it. */
  function NumberAfter(t: string, i: nat, opening: string): (r: Option<(nat, nat)>)
    ensures r.Some? ==> i < r.value.1 <= |t|
  {
    if !At(t, i, opening) then None
    else
      var a := i + |opening|;
      var e := DigitsEnd(t, a);
      if e == a then None else Some((Number(t[a..e]), e))
  }

  /** The match of `\[R(\d+)Q(\d+)D(\d+)\]` at position `p`. */
  function LabelAt(t: string, p: nat): Option<Label> {
    match NumberAfter(t, p, "[R")
    case None => None
    case Some((r, i)) =>
      match NumberAfter(t, i, "Q")
      case None => None
      case Some((q, j)) =>
        match NumberAfter(t, j, "D")
        case None => None
        case Some((d, k)) => if At(t, k, "]") then Some(Label(r, q, d)) else None
  }

  /** Every label in the text. Matches cannot overlap, so each position counts. */
  function LabelsIn(t: string): set<Label> {
    set p | 0 <= p < |t| && LabelAt(t, p).Some? :: LabelAt(t, p).value
  }

  lemma {:induction false} NumberOfDec(n: nat)
    ensures Number(Dec(n)) == n
  {
    var s := Dec(n);
    if n >= 10 {
      NumberOfDec(n / 10);
      assert s[..|s| - 1] == Dec(n / 10);
    } else {
      assert s[..|s| - 1] == "";
    }
  }

  /** A printed number between its opening text and a character that is no digit is read back. */
  lemma PrintedNumber(t: string, i: nat, opening: string, n: nat, next: string)
    requires At(t, i, opening + Dec(n) + next) && next != "" && !IsDigit(next[0])
    ensures NumberAfter(t, i, opening) == Some((n, i + |opening| + |Dec(n)|))
    ensures At(t, i + |opening| + |Dec(n)|, next)
  {
    hide Dec, Number, At;
    var a := i + |opening|;
    var e := a + |Dec(n)|;
    AtSplit(t, i, opening + Dec(n), next);
    AtSplit(t, i, opening, Dec(n));
    AtChars(t, a, Dec(n));
    AtChars(t, e, next);
    NumberOfDec(n);
    assert forall x | a <= x < e :: IsDigit(t[x]) by {
      forall x | a <= x < e ensures IsDigit(t[x]) { assert t[a..e][x - a] in Dec(n); }
    }
    assert DigitsEnd(t, a) == e;
  }

  lemma AtChars(t: string, i: nat, w: string)
    requires At(t, i, w)
    ensures i + |w| <= |t| && t[i..i + |w|] == w
    ensures w != "" ==> t[i] == w[0]
  {
    assert w != "" ==> t[i + 0] == w[0];
  }

  /** Labels survive printing and reading. */
  lemma LabelRoundTrip(t: string, p: nat, l: Label)
    requires At(t, p, Marker(l))
    ensures LabelAt(t, p) == Some(l)
  {
    hide Dec, At, NumberAfter;
    var d := "D" + Dec(l.doc) + "]";
    var q := "Q" + Dec(l.query) + d;
    assert Marker(l) == "[R" + Dec(l.round) + q;
    PrintedNumber(t, p, "[R", l.round, q);
    var i := NumberAfter(t, p, "[R").value.1;
    PrintedNumber(t, i, "Q", l.query, d);
    var j := NumberAfter(t, i, "Q").value.1;
    PrintedNumber(t, j, "D", l.doc, "]");
  }

  lemma KeyIsInjective(a: Label, b: Label)
    ensures Key(a) == Key(b) <==> a == b
  {
    hide Dec, At, LabelAt, Key;
    if Key(a) == Key(b) {
      AtSelf(Marker(a));
      LabelRoundTrip(Marker(a), 0, a);
      LabelRoundTrip(Marker(b), 0, b);
    }
  }

  /** `str.find`. */
  function Find(t: string, w: string, from: nat): (p: int)
    ensures p == -1 || (from <= p && At(t, p, w))
    ensures p == -1 ==> forall x: nat | from <= x < |t| :: !At(t, x, w)
    ensures p >= 0 ==> forall x: nat | from <= x < p :: !At(t, x, w)
    decreases |t| - from
  {
    if from >= |t| then -1 else if At(t, from, w) then from else Find(t, w, from + 1)
  }

  function Position(t: string, l: Label): int {
    Find(t, Marker(l), 0)
  }

  /** Markers found in the text are found at different places. */
  lemma PositionsDiffer(t: string, a: Label, b: Label)
    requires Position(t, a) == Position(t, b) >= 0
    ensures a == b
  {
    hide At, LabelAt, Marker, Find;
    LabelRoundTrip(t, Position(t, a), a);
    LabelRoundTrip(t, Position(t, b), b);
  }

  // ---------------------------------------------------------------- the results that labels name

  datatype SearchContext = SearchContext(query: string, results: seq<Passage>, taskId: Option<string>)

  type Rounds = seq<seq<SearchContext>>

  /** Labels count from one. */
  predicate InRange(rounds: Rounds, l: Label) {
    && 1 <= l.round <= |rounds|
    && 1 <= l.query <= |rounds[l.round - 1]|
    && 1 <= l.doc <= |rounds[l.round - 1][l.query - 1].results|
  }

  function Resolve(rounds: Rounds, l: Label): Passage
    requires InRange(rounds, l)
  {
    rounds[l.round - 1][l.query - 1].results[l.doc - 1]
  }

  /** `AgentContext`: rounds are only ever appended. */
  class AgentContext {
    var rounds: Rounds
    var tasks: set<string>

    constructor ()
      ensures rounds == [] && tasks == {}
    {
      rounds, tasks := [], {};
    }

    method RegisterTasks(ids: set<string>)
      modifies this`tasks
      ensures tasks == old(tasks) + ids
    {
      tasks := tasks + ids;
    }

    method AddRound(queries: seq<string>, rows: seq<seq<Passage>>, taskIds: seq<Option<string>>)
      returns (contexts: seq<SearchContext>)
      requires |queries| == |rows| == |taskIds|
      modifies this`rounds
      ensures contexts == Contexts(queries, rows, taskIds)
      ensures rounds == old(rounds) + [contexts]
    {
      contexts := Contexts(queries, rows, taskIds);
      rounds := rounds + [contexts];
    }
  }

  function Contexts(queries: seq<string>, rows: seq<seq<Passage>>, taskIds: seq<Option<string>>): seq<SearchContext>
    requires |queries| == |rows| == |taskIds|
  {
    seq(|queries|, i requires 0 <= i < |queries| => SearchContext(queries[i], rows[i], taskIds[i]))
  }

  /** More rounds leave every earlier label on its passage. */
  lemma LabelsAreStable(rounds: Rounds, later: Rounds, l: Label)
    requires rounds <= later && InRange(rounds, l)
    ensures InRange(later, l) && Resolve(later, l) == Resolve(rounds, l)
  {
    assert later[l.round - 1] == rounds[l.round - 1];
  }

  // ---------------------------------------------------------------- resolving an answer's citations

  /** The keys in the answer. The loop compares keys, which is comparing labels because keys are injective. */
  function Referenced(t: string): set<string> {
    set l | l in LabelsIn(t) :: Key(l)
  }

  predicate Valid(t: string, rounds: Rounds, l: Label) {
    InRange(rounds, l) && l in LabelsIn(t)
  }

  lemma ReferencedMeans(t: string, l: Label)
    ensures Key(l) in Referenced(t) <==> l in LabelsIn(t)
  {
    hide Key, LabelsIn;
    forall m | m in LabelsIn(t) && Key(m) == Key(l) ensures m == l { KeyIsInjective(m, l); }
  }

  /** Some valid labels, each once. */
  ghost predicate Candidates(t: string, rounds: Rounds, ls: seq<Label>, done: set<Label>) {
    && (forall l :: l in ls <==> l in done && Valid(t, rounds, l))
    && forall i, j | 0 <= i < j < |ls| :: ls[i] != ls[j]
  }

  function RowLabels(r: nat, q: nat, n: nat): set<Label> {
    set d | 1 <= d <= n :: Label(r, q, d)
  }

  /** The innermost loop: the results of one query. */
  method CollectRow(t: string, rounds: Rounds, r: nat, q: nat, keys: set<string>,
                    ghost done: set<Label>, ls: seq<Label>)
    returns (ls': seq<Label>)
    requires 1 <= r <= |rounds| && 1 <= q <= |rounds[r - 1]| && keys == Referenced(t)
    requires Candidates(t, rounds, ls, done) && forall l | l in done :: l.round != r || l.query != q
    ensures Candidates(t, rounds, ls', done + RowLabels(r, q, |rounds[r - 1][q - 1].results|))
  {
    hide Key, LabelsIn, Referenced;
    ls' := ls;
    assert done + RowLabels(r, q, 0) == done;
    for d := 1 to |rounds[r - 1][q - 1].results| + 1
      invariant Candidates(t, rounds, ls', done + RowLabels(r, q, d - 1))
    {
      var l := Label(r, q, d);
      ReferencedMeans(t, l);
      assert done + RowLabels(r, q, d) == done + RowLabels(r, q, d - 1) + {l};
      assert l !in done + RowLabels(r, q, d - 1);
      if Key(l) in keys { ls' := ls' + [l]; }
    }
  }

  function RoundLabels(round: seq<SearchContext>, r: nat, n: nat): set<Label>
    requires n <= |round|
  {
    set q, d | 1 <= q <= n && 1 <= d <= |round[q - 1].results| :: Label(r, q, d)
  }

  method CollectRound(t: string, rounds: Rounds, r: nat, keys: set<string>, ghost done: set<Label>, ls: seq<Label>)
    returns (ls': seq<Label>)
    requires 1 <= r <= |rounds| && keys == Referenced(t)
    requires Candidates(t, rounds, ls, done) && forall l | l in done :: l.round != r
    ensures Candidates(t, rounds, ls', done + RoundLabels(rounds[r - 1], r, |rounds[r - 1]|))
  {
    hide Candidates, Referenced;
    ls' := ls;
    assert done + RoundLabels(rounds[r - 1], r, 0) == done;
    for q := 1 to |rounds[r - 1]| + 1
      invariant Candidates(t, rounds, ls', done + RoundLabels(rounds[r - 1], r, q - 1))
    {
      ghost var before := done + RoundLabels(rounds[r - 1], r, q - 1);
      ls' := CollectRow(t, rounds, r, q, keys, before, ls');
      assert done + RoundLabels(rounds[r - 1], r, q) == before + RowLabels(r, q, |rounds[r - 1][q - 1].results|);
    }
  }

  ghost function AllLabels(rounds: Rounds, n: nat): set<Label>
    requires n <= |rounds|
  {
    if n == 0 then {} else AllLabels(rounds, n - 1) + RoundLabels(rounds[n - 1], n, |rounds[n - 1]|)
  }

  lemma {:induction false} AllLabelsMeans(rounds: Rounds, n: nat)
    requires n <= |rounds|
    ensures forall l :: l in AllLabels(rounds, n) <==> InRange(rounds, l) && l.round <= n
  {
    if n > 0 {
      AllLabelsMeans(rounds, n - 1);
      forall l: Label | l.round == n
        ensures l in RoundLabels(rounds[n - 1], n, |rounds[n - 1]|) <==> InRange(rounds, l)
      {
        assert l == Label(n, l.query, l.doc);
      }
    }
  }

  method Collect(t: string, rounds: Rounds) returns (ls: seq<Label>)
    ensures forall l :: l in ls <==> Valid(t, rounds, l)
    ensures forall i, j | 0 <= i < j < |ls| :: ls[i] != ls[j]
  {
    hide LabelsIn, Referenced;
    ls := [];
    var keys := Referenced(t);
    for r := 1 to |rounds| + 1
      invariant Candidates(t, rounds, ls, AllLabels(rounds, r - 1))
    {
      AllLabelsMeans(rounds, r - 1);
      ls := CollectRound(t, rounds, r, keys, AllLabels(rounds, r - 1), ls);
    }
    AllLabelsMeans(rounds, |rounds|);
  }

  // ---------------------------------------------------------------- order and repetitions

  predicate Ascending(t: string, ls: seq<Label>) {
    forall i, j | 0 <= i < j < |ls| :: Position(t, ls[i]) <= Position(t, ls[j])
  }

  function Insert(t: string, ls: seq<Label>, l: Label): (r: seq<Label>)
    requires Ascending(t, ls)
    ensures Ascending(t, r) && multiset(r) == multiset(ls) + multiset{l}
  {
    if ls == [] || Position(t, ls[|ls| - 1]) <= Position(t, l) then ls + [l]
    else
      AscendingInit(t, ls);
      var r := Insert(t, ls[..|ls| - 1], l);
      InsertedBelow(t, r, ls, l);
      r + [ls[|ls| - 1]]
  }

  lemma AscendingInit(t: string, ls: seq<Label>)
    requires Ascending(t, ls) && ls != []
    ensures Ascending(t, ls[..|ls| - 1])
  {
    hide Position;
  }

  lemma InsertedBelow(t: string, r: seq<Label>, ls: seq<Label>, l: Label)
    requires Ascending(t, ls) && ls != [] && Position(t, l) < Position(t, ls[|ls| - 1])
    requires Ascending(t, r) && multiset(r) == multiset(ls[..|ls| - 1]) + multiset{l}
    ensures Ascending(t, r + [ls[|ls| - 1]]) && multiset(r + [ls[|ls| - 1]]) == multiset(ls) + multiset{l}
  {
    hide Position;
    var init, top := ls[..|ls| - 1], ls[|ls| - 1];
    assert ls == init + [top];
    forall i | 0 <= i < |r| ensures Position(t, r[i]) <= Position(t, top) {
      assert r[i] in multiset(r);
      assert r[i] in init || r[i] == l;
    }
  }

  /** The stable sort by first appearance. A key with no exact marker in the text sorts first, at -1. */
  function Sorted(t: string, ls: seq<Label>): (r: seq<Label>)
    ensures Ascending(t, r) && multiset(r) == multiset(ls)
  {
    if ls == [] then []
    else
      assert ls == ls[..|ls| - 1] + [ls[|ls| - 1]];
      Insert(t, Sorted(t, ls[..|ls| - 1]), ls[|ls| - 1])
  }

  datatype Citation = Citation(docId: string, marker: string, text: string)

  function Cite(rounds: Rounds, l: Label): Citation
    requires InRange(rounds, l)
  {
    Citation(Key(l), Marker(l), Resolve(rounds, l).contents)
  }

  /** Every candidate so far is represented by a citation with its contents that stands no later. */
  ghost predicate Represents(t: string, rounds: Rounds, cited: seq<Label>, ls: seq<Label>)
    requires (forall l | l in cited :: InRange(rounds, l)) && forall l | l in ls :: InRange(rounds, l)
  {
    forall l | l in ls :: exists c | c in cited ::
      Resolve(rounds, c).contents == Resolve(rounds, l).contents && Position(t, c) <= Position(t, l)
  }

  ghost predicate NoRepeats(rounds: Rounds, cited: seq<Label>)
    requires forall i | 0 <= i < |cited| :: InRange(rounds, cited[i])
  {
    forall i, j | 0 <= i < j < |cited| :: Resolve(rounds, cited[i]).contents != Resolve(rounds, cited[j]).contents
  }

  /** What the filter has kept of the labels it has passed. */
  ghost predicate Filtered(t: string, rounds: Rounds, cited: seq<Label>, ls: seq<Label>) {
    && (forall l | l in ls :: InRange(rounds, l))
    && (forall i | 0 <= i < |cited| :: cited[i] in ls && InRange(rounds, cited[i]))
    && Ascending(t, cited) && NoRepeats(rounds, cited) && Represents(t, rounds, cited, ls)
  }

  lemma FilterStep(t: string, rounds: Rounds, cited: seq<Label>, ls: seq<Label>, i: nat)
    requires i < |ls| && Ascending(t, ls) && InRange(rounds, ls[i]) && Filtered(t, rounds, cited, ls[..i])
    ensures (exists c | c in cited :: Resolve(rounds, c).contents == Resolve(rounds, ls[i]).contents)
      ==> Filtered(t, rounds, cited, ls[..i + 1])
    ensures (forall c | c in cited :: Resolve(rounds, c).contents != Resolve(rounds, ls[i]).contents)
      ==> Filtered(t, rounds, cited + [ls[i]], ls[..i + 1])
  {
    hide Position, Resolve, InRange, Represents;
    var l := ls[i];
    assert ls[..i + 1] == ls[..i] + [l];
    assert forall c | c in ls[..i] :: Position(t, c) <= Position(t, l);
    assert forall c | c in cited :: c in ls[..i];
    RepresentsMore(t, rounds, cited, ls[..i], l);
  }

  /** The filter through `seen_contents`. */
  method DropRepeats(t: string, rounds: Rounds, ls: seq<Label>)
    returns (citations: seq<Citation>, ghost cited: seq<Label>)
    requires Ascending(t, ls) && forall l | l in ls :: InRange(rounds, l)
    ensures Filtered(t, rounds, cited, ls)
    ensures |citations| == |cited| && forall i | 0 <= i < |cited| :: citations[i] == Cite(rounds, cited[i])
  {
    hide Ascending, NoRepeats, Represents, Position, Key, Marker, Resolve, InRange;
    citations, cited := [], [];
    var seen: set<string> := {};
    NothingFiltered(t, rounds);
    for i := 0 to |ls|
      invariant Filtered(t, rounds, cited, ls[..i])
      invariant seen == set l | l in cited :: Resolve(rounds, l).contents
      invariant |citations| == |cited| && forall k | 0 <= k < |cited| :: citations[k] == Cite(rounds, cited[k])
    {
      FilterStep(t, rounds, cited, ls, i);
      var contents := Resolve(rounds, ls[i]).contents;
      if contents !in seen {
        seen := seen + {contents};
        citations := citations + [Cite(rounds, ls[i])];
        cited := cited + [ls[i]];
      }
    }
    assert ls[..|ls|] == ls;
  }

  lemma NothingFiltered(t: string, rounds: Rounds)
    ensures Filtered(t, rounds, [], [])
  {
  }

  lemma RepresentsMore(t: string, rounds: Rounds, cited: seq<Label>, ls: seq<Label>, l: Label)
    requires (forall x | x in cited :: InRange(rounds, x)) && (forall x | x in ls :: InRange(rounds, x))
    requires InRange(rounds, l) && Represents(t, rounds, cited, ls)
    requires forall c | c in cited :: Position(t, c) <= Position(t, l)
    ensures Represents(t, rounds, cited + [l], ls + [l])
    ensures (exists c | c in cited :: Resolve(rounds, c).contents == Resolve(rounds, l).contents)
      ==> Represents(t, rounds, cited, ls + [l])
  {
    hide Position, Resolve, InRange;
    assert forall c | c in cited :: c in cited + [l];
    assert l in cited + [l];
    assert forall x | x in ls + [l] :: x in ls || x == l;
  }

  /** Where the marker of a citation is found in the answer. */
  function Place(t: string, c: Citation): int {
    Find(t, c.marker, 0)
  }

  /** The place where the answer first reads the label. */
  ghost predicate FirstRead(t: string, l: Label, p: nat) {
    p < |t| && LabelAt(t, p) == Some(l) && forall x: nat | x < p :: LabelAt(t, x) != Some(l)
  }

  /** Every label that is read from the answer is written without leading zeros. */
  ghost predicate Canonical(t: string) {
    forall p: nat | p < |t| && LabelAt(t, p).Some? :: At(t, p, Marker(LabelAt(t, p).value))
  }

  /** Each citation has the place where its label is first read, and these places ascend strictly. */
  ghost predicate InReadingOrder(t: string, rounds: Rounds, citations: seq<Citation>) {
    && (forall i, j | 0 <= i < j < |citations| :: 0 <= Place(t, citations[i]) < Place(t, citations[j]))
    && forall c | c in citations ::
      Place(t, c) >= 0 && exists l :: Valid(t, rounds, l) && c == Cite(rounds, l) && FirstRead(t, l, Place(t, c))
  }

  lemma FirstPlace(t: string, l: Label, from: nat) returns (p: nat)
    requires from < |t| && LabelAt(t, from) == Some(l)
    ensures FirstRead(t, l, p)
    decreases from
  {
    hide LabelAt;
    if x: nat :| x < from && LabelAt(t, x) == Some(l) {
      p := FirstPlace(t, l, x);
    } else {
      p := from;
    }
  }

  lemma CanonicalPlace(t: string, l: Label)
    requires Canonical(t) && l in LabelsIn(t)
    ensures Position(t, l) >= 0 && FirstRead(t, l, Position(t, l))
  {
    hide LabelAt, Marker, At, Find;
    var from :| 0 <= from < |t| && LabelAt(t, from) == Some(l);
    var p := FirstPlace(t, l, from);
    FirstReadingIff(t, l, p);
  }

  lemma CanonicalInOrder(t: string, rounds: Rounds, citations: seq<Citation>)
    requires Canonical(t) && forall c | c in citations :: exists l :: Valid(t, rounds, l) && c == Cite(rounds, l)
    requires forall i, j | 0 <= i < j < |citations| ::
      Place(t, citations[i]) < Place(t, citations[j]) || Place(t, citations[i]) == Place(t, citations[j]) == -1
    ensures InReadingOrder(t, rounds, citations)
  {
    hide Find, Marker, Key, LabelsIn, Resolve, InRange, LabelAt, Canonical, FirstRead, Position, Place, Cite;
    forall c | c in citations
      ensures Place(t, c) >= 0
      ensures exists l :: Valid(t, rounds, l) && c == Cite(rounds, l) && FirstRead(t, l, Place(t, c))
    {
      var l :| Valid(t, rounds, l) && c == Cite(rounds, l);
      CanonicalPlace(t, l);
      CiteMeans(t, rounds, l);
    }
    assert forall i | 0 <= i < |citations| :: Place(t, citations[i]) >= 0;
  }

  /** `AnswerGenerator.generate`. Every citation is that of a label in range that is read from the answer. They come
  in order of first appearance, at different places, and no two have the same contents. Every such label has a
  citation with its contents that stands no later. With labels written without leading zeros, they stand in the order
  in which they are first read. */
  method Generate(t: string, rounds: Rounds) returns (citations: seq<Citation>)
    ensures forall c | c in citations :: exists l :: Valid(t, rounds, l) && c == Cite(rounds, l)
    ensures forall i, j | 0 <= i < j < |citations| ::
      Place(t, citations[i]) < Place(t, citations[j]) || Place(t, citations[i]) == Place(t, citations[j]) == -1
    ensures forall i, j | 0 <= i < j < |citations| :: citations[i].text != citations[j].text
    ensures forall l | Valid(t, rounds, l) :: exists c | c in citations ::
      c.text == Resolve(rounds, l).contents && Place(t, c) <= Position(t, l)
    ensures Canonical(t) ==> InReadingOrder(t, rounds, citations)
  {
    hide Find, Marker, Key, Canonical, InReadingOrder, LabelsIn, Resolve, InRange, Filtered, Place, Position;
    var candidates := Collect(t, rounds);
    var sorted := Sorted(t, candidates);
    SameMembers(sorted, candidates);
    ghost var cited;
    citations, cited := DropRepeats(t, rounds, sorted);
    CitationsMean(t, rounds, sorted, citations, cited);
    if Canonical(t) { CanonicalInOrder(t, rounds, citations); }
  }

  lemma CitationsMean(t: string, rounds: Rounds, ls: seq<Label>, citations: seq<Citation>, cited: seq<Label>)
    requires Filtered(t, rounds, cited, ls) && |citations| == |cited|
    requires forall i | 0 <= i < |cited| :: citations[i] == Cite(rounds, cited[i])
    ensures forall c | c in citations :: exists l :: l in ls && InRange(rounds, l) && c == Cite(rounds, l)
    ensures forall i, j | 0 <= i < j < |citations| ::
      Place(t, citations[i]) < Place(t, citations[j]) || Place(t, citations[i]) == Place(t, citations[j]) == -1
    ensures forall i, j | 0 <= i < j < |citations| :: citations[i].text != citations[j].text
    ensures forall l | l in ls && InRange(rounds, l) :: exists c | c in citations ::
      c.text == Resolve(rounds, l).contents && Place(t, c) <= Position(t, l)
  {
    hide Position, Place, Cite, Resolve, InRange, Ascending, NoRepeats, Represents;
    StrictlyAscending(t, rounds, cited);
    forall i | 0 <= i < |cited|
      ensures citations[i].text == Resolve(rounds, cited[i]).contents && Place(t, citations[i]) == Position(t, cited[i])
    {
      CiteMeans(t, rounds, cited[i]);
    }
    AllDiffer(rounds, cited);
    forall l | l in ls && InRange(rounds, l)
      ensures exists c | c in citations :: c.text == Resolve(rounds, l).contents && Place(t, c) <= Position(t, l)
    {
      var i := Representative(t, rounds, cited, ls, l);
      assert citations[i] in citations;
    }
  }

  lemma CiteMeans(t: string, rounds: Rounds, l: Label)
    requires InRange(rounds, l)
    ensures Cite(rounds, l).text == Resolve(rounds, l).contents && Place(t, Cite(rounds, l)) == Position(t, l)
  {
    hide Find, Marker, Key, Resolve, InRange;
  }

  lemma AllDiffer(rounds: Rounds, cited: seq<Label>)
    requires (forall i | 0 <= i < |cited| :: InRange(rounds, cited[i])) && NoRepeats(rounds, cited)
    ensures forall i, j | 0 <= i < j < |cited| ::
      Resolve(rounds, cited[i]).contents != Resolve(rounds, cited[j]).contents
  {
    hide InRange, Resolve;
  }

  lemma Representative(t: string, rounds: Rounds, cited: seq<Label>, ls: seq<Label>, l: Label) returns (i: nat)
    requires (forall x | x in cited :: InRange(rounds, x)) && (forall x | x in ls :: InRange(rounds, x))
    requires Represents(t, rounds, cited, ls) && l in ls
    ensures i < |cited|
    ensures Resolve(rounds, cited[i]).contents == Resolve(rounds, l).contents && Position(t, cited[i]) <= Position(t, l)
  {
    hide Position, Resolve, InRange;
    var c :| c in cited
      && Resolve(rounds, c).contents == Resolve(rounds, l).contents && Position(t, c) <= Position(t, l);
    i := IndexOf(cited, c);
  }

  function IndexOf(ls: seq<Label>, l: Label): (i: nat)
    requires l in ls
    ensures i < |ls| && ls[i] == l
  {
    if ls[0] == l then 0 else 1 + IndexOf(ls[1..], l)
  }

  lemma SameMembers(a: seq<Label>, b: seq<Label>)
    requires multiset(a) == multiset(b)
    ensures forall l :: l in a <==> l in b
  {
    forall l ensures l in a <==> l in b {
      assert l in a <==> l in multiset(a);
      assert l in b <==> l in multiset(b);
    }
  }

  lemma StrictlyAscending(t: string, rounds: Rounds, cited: seq<Label>)
    requires Ascending(t, cited) && forall i | 0 <= i < |cited| :: InRange(rounds, cited[i])
    requires NoRepeats(rounds, cited)
    ensures forall i, j | 0 <= i < j < |cited| ::
      Position(t, cited[i]) < Position(t, cited[j]) || Position(t, cited[i]) == Position(t, cited[j]) == -1
  {
    hide Marker, Find, Resolve;
    forall i, j | 0 <= i < j < |cited| && Position(t, cited[i]) == Position(t, cited[j])
      ensures Position(t, cited[i]) == -1
    {
      if Position(t, cited[i]) >= 0 { PositionsDiffer(t, cited[i], cited[j]); }
    }
  }

  /** A label is sorted by the place where it is first read if and only if it is written there without leading
  zeros; otherwise by a later place, or by none. */
  lemma FirstReadingIff(t: string, l: Label, p: nat)
    requires FirstRead(t, l, p)
    ensures Position(t, l) == p <==> At(t, p, Marker(l))
    ensures Position(t, l) == -1 || Position(t, l) >= p
  {
    hide Marker, LabelAt, At, Find;
    var x := Position(t, l);
    if x >= 0 { LabelRoundTrip(t, x, l); }
    if At(t, p, Marker(l)) {
      assert !(x > p);
      assert x != -1;
    }
  }

  /** A label with a leading zero is read, and resolves, but its marker is nowhere in the text. */
  lemma PaddedLabel()
    ensures Label(1, 1, 1) in LabelsIn("[R01Q1D1]") && Position("[R01Q1D1]", Label(1, 1, 1)) == -1
  {
    hide Number, LabelAt, Find, Dec, At;
    var t, l := "[R01Q1D1]", Label(1, 1, 1);
    PaddedReads();
    One();
    if Position(t, l) >= 0 {
      AtChars(t, Position(t, l), Marker(l));
      AtChars(t, Position(t, l) + 2, Marker(l)[2..]);
    }
  }

  lemma One()
    ensures Dec(1) == "1" && Number("1") == 1 && Number("01") == 1
  {
    assert "1"[..0] == "" && "01"[..1] == "0" && "0"[..0] == "";
    assert Number("0") == 0;
  }

  lemma PaddedReads()
    ensures LabelAt("[R01Q1D1]", 0) == Some(Label(1, 1, 1))
  {
    hide Number, NumberAfter;
    var t := "[R01Q1D1]";
    One();
    assert t[2..4] == "01" && t[5..6] == "1" && t[7..8] == "1";
    ReadsNumber(t, 0, "[R", 4);
    ReadsNumber(t, 4, "Q", 6);
    ReadsNumber(t, 6, "D", 8);
  }

  lemma ReadsNumber(t: string, i: nat, opening: string, e: nat)
    requires At(t, i, opening) && i + |opening| < e < |t| && !IsDigit(t[e])
    requires forall x | i + |opening| <= x < e :: IsDigit(t[x])
    ensures forall c | c in t[i + |opening|..e] :: IsDigit(c)
    ensures NumberAfter(t, i, opening) == Some((Number(t[i + |opening|..e]), e))
  {
    hide Number, DigitsEnd;
    RunOfDigits(t, i + |opening|, e);
  }

  lemma RunOfDigits(t: string, i: nat, e: nat)
    requires i <= e < |t| && !IsDigit(t[e]) && forall x | i <= x < e :: IsDigit(t[x])
    ensures DigitsEnd(t, i) == e
  {
    hide DigitsEnd;
  }

  // ---------------------------------------------------------------- exactly the labels

  /** The digits write the number, with leading zeros or without. */
  predicate Writes(s: string, n: nat) {
    s != "" && (forall c | c in s :: IsDigit(c)) && Number(s) == n
  }

  lemma {:induction false} LeadingZero(s: string)
    requires forall c | c in s :: IsDigit(c)
    ensures Number("0" + s) == Number(s)
  {
    var z := "0" + s;
    if s == "" {
      assert z[..|z| - 1] == "";
    } else {
      assert z[..|z| - 1] == "0" + s[..|s| - 1];
      LeadingZero(s[..|s| - 1]);
    }
  }

  lemma NumberIff(t: string, i: nat, opening: string, n: nat, e: nat)
    ensures NumberAfter(t, i, opening) == Some((n, e)) <==>
      && At(t, i, opening) && i + |opening| < e <= |t| && Writes(t[i + |opening|..e], n)
      && (e < |t| ==> !IsDigit(t[e]))
  {
    hide Number;
    var a := i + |opening|;
    if At(t, i, opening) && a < e <= |t| && Writes(t[a..e], n) && (e < |t| ==> !IsDigit(t[e])) {
      forall x | a <= x < e ensures IsDigit(t[x]) { assert t[a..e][x - a] in t[a..e]; }
      assert DigitsEnd(t, a) == e by { RunEnds(t, a, e); }
    }
  }

  lemma RunEnds(t: string, i: nat, e: nat)
    requires i <= e <= |t| && (e < |t| ==> !IsDigit(t[e])) && forall x | i <= x < e :: IsDigit(t[x])
    ensures DigitsEnd(t, i) == e
  {
    hide DigitsEnd;
  }

  /** The label stands at the place: its three numbers in digits, with the letters and the brackets around them. */
  predicate StandsAt(t: string, p: nat, l: Label, a: string, b: string, c: string) {
    && Writes(a, l.round) && Writes(b, l.query) && Writes(c, l.doc)
    && At(t, p, "[R" + a + ("Q" + b + ("D" + c + "]")))
  }

  lemma Standing(t: string, p: nat, l: Label, a: string, b: string, c: string)
    requires StandsAt(t, p, l, a, b, c)
    ensures LabelAt(t, p) == Some(l)
  {
    hide At, Number, NumberAfter;
    var i := NumberHere(t, p, "[R", l.round, a, "Q" + b + ("D" + c + "]"));
    var j := NumberHere(t, i, "Q", l.query, b, "D" + c + "]");
    var k := NumberHere(t, j, "D", l.doc, c, "]");
  }

  lemma NumberHere(t: string, i: nat, opening: string, n: nat, s: string, next: string) returns (e: nat)
    requires At(t, i, opening + s + next) && Writes(s, n) && next != "" && !IsDigit(next[0])
    ensures e == i + |opening| + |s| && NumberAfter(t, i, opening) == Some((n, e)) && At(t, e, next)
  {
    hide Number, At, NumberAfter, Writes;
    e := i + |opening| + |s|;
    AtSplit(t, i, opening + s, next);
    AtSplit(t, i, opening, s);
    AtChars(t, i + |opening|, s);
    AtChars(t, e, next);
    assert s != "" by { WritesSome(s, n); }
    NumberIff(t, i, opening, n, e);
  }

  lemma WritesSome(s: string, n: nat)
    requires Writes(s, n)
    ensures s != ""
  {
  }

  /** A label is read where it stands, and nowhere else. */
  lemma LabelIff(t: string, p: nat, l: Label)
    ensures LabelAt(t, p) == Some(l) <==> exists a, b, c :: StandsAt(t, p, l, a, b, c)
  {
    hide At, Number, NumberAfter, Writes;
    if LabelAt(t, p) == Some(l) {
      var i := NumberAfter(t, p, "[R").value.1;
      var j := NumberAfter(t, i, "Q").value.1;
      var k := NumberAfter(t, j, "D").value.1;
      var c := ReadDigits(t, j, "D", l.doc, k, "]");
      var b := ReadDigits(t, i, "Q", l.query, j, "D" + c + "]");
      var a := ReadDigits(t, p, "[R", l.round, i, "Q" + b + ("D" + c + "]"));
      assert StandsAt(t, p, l, a, b, c);
    }
    if a, b, c :| StandsAt(t, p, l, a, b, c) { Standing(t, p, l, a, b, c); }
  }

  lemma ReadDigits(t: string, i: nat, opening: string, n: nat, e: nat, next: string) returns (s: string)
    requires NumberAfter(t, i, opening) == Some((n, e)) && At(t, e, next)
    ensures Writes(s, n) && At(t, i, opening + s + next)
  {
    hide Number, NumberAfter, Writes;
    NumberIff(t, i, opening, n, e);
    s := t[i + |opening|..e];
    AtSplit(t, i, opening, s);
    AtSplit(t, i, opening + s, next);
  }

  /** What a citation says: the label, in brackets too, and the contents of the passage at its place. */
  lemma CitationSays(rounds: Rounds, l: Label)
    requires InRange(rounds, l)
    ensures var c := Cite(rounds, l);
      && c.marker == "[" + c.docId + "]" && LabelAt(c.marker, 0) == Some(l)
      && c.text == rounds[l.round - 1][l.query - 1].results[l.doc - 1].contents
  {
    hide Key, LabelAt;
    AtSelf(Marker(l));
    LabelRoundTrip(Marker(l), 0, l);
  }
}
